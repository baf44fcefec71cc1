/** Which change of settings is heard in which file, in terms of voices and texts (server/src/tts/tts.cache-meta.ts). */
module TtsSpeech {
  import opened Prelude
  import opened TtsCacheModel
  import opened TtsCacheProofs

  predicate IsLang(lang: Lang) { lang == "ko" || lang == "en" || lang == "ja" || lang == "zh" }

  /** The voice of a language is its own, else the Korean one, else none. */
  predicate SpokenBy(c: Config, lang: Lang, voice: Option<Voice>) {
    if lang in c.voices then voice == Some(c.voices[lang])
    else if "ko" in c.voices then voice == Some(c.voices["ko"])
    else voice == None
  }

  /** The text of a phrase is the one in the language, else the English one, else nothing. */
  predicate Reads(c: Config, lang: Lang, key: Key, text: string)
    requires key in c.phrases
  {
    var texts := c.phrases[key];
    if lang in texts && texts[lang] != "" then text == texts[lang]
    else if "en" in texts then text == texts["en"]
    else text == ""
  }

  lemma VoiceIs(c: Config, lang: Lang)
    ensures SpokenBy(c, lang, VoiceOf(c, lang)) && forall v :: SpokenBy(c, lang, v) ==> v == VoiceOf(c, lang)
  {
  }

  lemma TextIs(c: Config, lang: Lang, key: Key)
    requires key in c.phrases
    ensures Reads(c, lang, key, PhraseText(c.phrases[key], lang))
    ensures forall text :: Reads(c, lang, key, text) ==> text == PhraseText(c.phrases[key], lang)
  {
  }

  lemma LangsAre(lang: Lang)
    ensures IsLang(lang) <==> lang in LANGS
  {
  }

  /** What a saved meta records: the rate and the templates, the voice of each language, the text of each phrase in it. */
  lemma MetaRecords(c: Config, lang: Lang, key: Key, voice: Option<Voice>, text: string)
    requires IsLang(lang) && SpokenBy(c, lang, voice) && key in c.phrases && Reads(c, lang, key, text)
    ensures var m := BuildMeta(c);
      && m.rate == c.rate && m.voices == c.voices && m.global == OfGlobal(c.rate, c.ssml)
      && lang in m.langs && m.langs[lang] == OfVoice(voice)
      && lang in m.phrases && key in m.phrases[lang] && m.phrases[lang][key] == OfText(text)
  {
    hide PhraseText, VoiceOf, Reads;
    LangsAre(lang);
    VoiceIs(c, lang);
    TextIs(c, lang, key);
  }

  /**
    * A phrase that both settings have is deleted exactly when its rate, its templates, the voice of its language or its
    * text in the language is not the same any more.
    */
  lemma PhraseDeletedWhenHeard(past: Config, next: Config, numbers: set<Key>, existing: set<File>, lang: Lang, key: Key,
                               voices: (Option<Voice>, Option<Voice>), texts: (string, string))
    requires WordKeys(past) && WordKeys(next) && forall n <- numbers :: IsDigits(n)
    requires IsLang(lang) && key in past.phrases && key in next.phrases && FileName(lang, key) in existing
    requires SpokenBy(past, lang, voices.0) && SpokenBy(next, lang, voices.1)
    requires Reads(past, lang, key, texts.0) && Reads(next, lang, key, texts.1)
    ensures FileName(lang, key) in DeleteFiles(V2(BuildMeta(past)), BuildMeta(next), AllowedFiles(next, numbers), existing) <==>
      past.rate != next.rate || past.ssml != next.ssml || voices.0 != voices.1 || texts.0 != texts.1
  {
    hide PhraseText, VoiceOf, Reads, FileName, DeleteFiles, BuildMeta, AllowedFiles, IsDigits;
    LangsAre(lang);
    VoiceIs(past, lang);
    VoiceIs(next, lang);
    TextIs(past, lang, key);
    TextIs(next, lang, key);
    DeletedWhenStale(past, next, numbers, existing, lang, key);
  }

  /** A phrase that is new to the settings is deleted, as the file cannot be its own. */
  lemma NewPhraseDeleted(past: Config, next: Config, numbers: set<Key>, existing: set<File>, lang: Lang, key: Key)
    requires WordKeys(past) && WordKeys(next) && forall n <- numbers :: IsDigits(n)
    requires IsLang(lang) && key !in past.phrases && key in next.phrases && FileName(lang, key) in existing
    ensures FileName(lang, key) in DeleteFiles(V2(BuildMeta(past)), BuildMeta(next), AllowedFiles(next, numbers), existing)
  {
    hide PhraseText, VoiceOf, FileName, DeleteFiles, BuildMeta, AllowedFiles, IsDigits;
    LangsAre(lang);
    DeletedWhenStale(past, next, numbers, existing, lang, key);
  }

  /** A number is deleted exactly when its rate, its templates or the voice of its language is not the same any more. */
  lemma NumberDeletedWhenHeard(past: Config, next: Config, numbers: set<Key>, existing: set<File>, lang: Lang, key: Key,
                               voices: (Option<Voice>, Option<Voice>))
    requires WordKeys(past) && WordKeys(next) && (forall n <- numbers :: IsDigits(n)) && key in numbers
    requires IsLang(lang) && FileName(lang, key) in existing
    requires SpokenBy(past, lang, voices.0) && SpokenBy(next, lang, voices.1)
    ensures FileName(lang, key) in DeleteFiles(V2(BuildMeta(past)), BuildMeta(next), AllowedFiles(next, numbers), existing) <==>
      past.rate != next.rate || past.ssml != next.ssml || voices.0 != voices.1
  {
    hide PhraseText, VoiceOf, FileName, DeleteFiles, BuildMeta, AllowedFiles, IsDigits;
    LangsAre(lang);
    VoiceIs(past, lang);
    VoiceIs(next, lang);
    DeletedWhenStale(past, next, numbers, existing, lang, key);
  }

  /** Without a meta of either version, or with one of version 1 for another rate or other voices, everything is deleted. */
  lemma OtherMetaDeletesAll(saved: Saved, next: Config, allowed: set<File>, existing: set<File>)
    requires match saved
      case V2(_) => false
      case V1(rate, voices) => rate != next.rate || voices != next.voices
      case _ => true
    ensures DeleteFiles(saved, BuildMeta(next), allowed, existing) == existing
  {
    hide VoiceHashes, PhraseTables;
  }

  /** The files the settings allow are those of each phrase and each number in the four languages. */
  lemma AllowedAre(c: Config, numbers: set<Key>, f: File)
    ensures f in AllowedFiles(c, numbers) <==>
      exists lang, key :: IsLang(lang) && (key in c.phrases || key in numbers) && f == lang + "-" + key + ".mp3"
  {
    hide FileName;
    if f in AllowedFiles(c, numbers) {
      var lang, key :| lang in LANGS && key in c.phrases.Keys + numbers && f == FileName(lang, key);
      LangsAre(lang);
      NameIs(lang, key);
    }
    if lang, key :| IsLang(lang) && (key in c.phrases || key in numbers) && f == lang + "-" + key + ".mp3" {
      LangsAre(lang);
      NameIs(lang, key);
    }
  }

  lemma NameIs(lang: Lang, key: Key)
    ensures FileName(lang, key) == lang + "-" + key + ".mp3"
  {
  }

  /** A reconcile unlinks the planned files but the locked ones, and records the settings. */
  lemma ReconcileRecords(d: Disk, c: Config, allowed: set<File>, locked: set<File>)
    ensures var r := Reconciled(d, BuildMeta(c), allowed, locked);
      && r.saved == V2(BuildMeta(c))
      && forall f :: f in r.files <==> f in d.files && (f in DeleteFiles(d.saved, BuildMeta(c), allowed, d.files) ==> f in locked)
  {
    hide BuildMeta, DeleteFiles;
  }
}
