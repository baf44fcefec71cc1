/** The meta, the plan and the reconcile as the loops of server/src/tts/tts.cache-meta.ts, which are proved against the functions of the model. */
module TtsCache {
  import opened Prelude
  import opened TtsCacheModel

  method BuildCacheMetaFrom(c: Config) returns (meta: Meta)
    ensures meta == BuildMeta(c)
  {
    hide PhraseHashes, VoiceOf;
    var langs, phrases := HashLangs(c);
    meta := Meta(c.rate, c.voices, OfGlobal(c.rate, c.ssml), langs, phrases);
  }

  /** The loop over the languages. */
  method HashLangs(c: Config) returns (langs: map<Lang, Hash>, phrases: map<Lang, map<Key, Hash>>)
    ensures langs == VoiceHashes(c, LANGS) && phrases == PhraseTables(c, LANGS)
  {
    hide VoiceHashes, PhraseTables, PhraseHashes, VoiceOf;
    langs, phrases := map[], map[];
    NoLangs(c);
    for i := 0 to |LANGS|
      invariant langs == VoiceHashes(c, LANGS[..i]) && phrases == PhraseTables(c, LANGS[..i])
    {
      var lang := LANGS[i];
      assert LANGS[..i + 1] == LANGS[..i] + [lang];
      OneMoreLang(c, LANGS[..i], lang);
      langs := langs[lang := OfVoice(VoiceOf(c, lang))];
      var perKey := HashPhrases(c, lang);
      phrases := phrases[lang := perKey];
    }
    assert LANGS[..|LANGS|] == LANGS;
  }

  lemma NoLangs(c: Config)
    ensures VoiceHashes(c, []) == map[] && PhraseTables(c, []) == map[]
  {
  }

  lemma OneMoreLang(c: Config, langs: seq<Lang>, lang: Lang)
    ensures VoiceHashes(c, langs + [lang]) == VoiceHashes(c, langs)[lang := OfVoice(VoiceOf(c, lang))]
    ensures PhraseTables(c, langs + [lang]) == PhraseTables(c, langs)[lang := PhraseHashes(c, lang)]
  {
    hide VoiceOf, PhraseHashes;
  }

  method HashPhrases(c: Config, lang: Lang) returns (perKey: map<Key, Hash>)
    ensures perKey == PhraseHashes(c, lang)
  {
    perKey := map[];
    var keys := c.phrases.Keys;
    while keys != {}
      invariant keys <= c.phrases.Keys
      invariant perKey == map key | key in c.phrases && key !in keys :: OfText(PhraseText(c.phrases[key], lang))
      decreases |keys|
    {
      var key :| key in keys;
      keys := keys - {key};
      perKey := perKey[key := OfText(PhraseText(c.phrases[key], lang))];
    }
  }

  /** The files doomed for one language. */
  method DoomLanguage(saved: Meta, current: Meta, lang: Lang, existing: set<File>) returns (doomed: set<File>)
    requires lang in current.langs
    ensures doomed == set f | f in existing && LangDooms(saved, current, lang, f)
  {
    hide FileName;
    if VoiceChanged(saved, current, lang) { return set f | f in existing && lang + "-" <= f; }
    doomed := {};
    var keys := PhrasesOf(current, lang).Keys;
    while keys != {}
      invariant keys <= PhrasesOf(current, lang).Keys
      invariant doomed == set f | f in existing && exists key ::
        key in PhrasesOf(current, lang) && key !in keys && PhraseChanged(saved, current, lang, key) && f == FileName(lang, key)
      decreases |keys|
    {
      var key :| key in keys;
      keys := keys - {key};
      if PhraseChanged(saved, current, lang, key) && FileName(lang, key) in existing {
        doomed := doomed + {FileName(lang, key)};
      }
    }
  }

  method PlanCacheInvalidation(saved: Saved, current: Meta, allowed: set<File>, existing: set<File>)
    returns (deleteFiles: set<File>, fullWipe: bool)
    ensures deleteFiles == DeleteFiles(saved, current, allowed, existing)
    ensures fullWipe <==> WipesAll(saved, current)
  {
    hide LangDooms, IsPhraseFile;
    var doomed := set f | f in existing && f !in allowed;
    if saved.V2? {
      if saved.meta.global != current.global { return existing, true; }
      var langs := current.langs.Keys;
      while langs != {}
        invariant langs <= current.langs.Keys
        invariant doomed == set f | f in existing &&
          (f !in allowed || exists lang :: lang in current.langs && lang !in langs && LangDooms(saved.meta, current, lang, f))
        decreases |langs|
      {
        var lang :| lang in langs;
        langs := langs - {lang};
        var more := DoomLanguage(saved.meta, current, lang, existing);
        doomed := doomed + more;
      }
      return doomed, false;
    }
    if saved.V1? {
      if saved.rate != current.rate { return existing, true; }
      if saved.voices != current.voices { return existing, true; }
      var phraseFiles := PhraseFiles(current, existing);
      return doomed + phraseFiles, false;
    }
    return existing, true;
  }

  method PhraseFiles(current: Meta, existing: set<File>) returns (files: set<File>)
    ensures files == set f | f in existing && IsPhraseFile(current, f)
  {
    hide FileName;
    files := {};
    var langs := current.phrases.Keys;
    while langs != {}
      invariant langs <= current.phrases.Keys
      invariant files == set f | f in existing && exists lang :: lang in current.phrases && lang !in langs && HasPhraseFile(current, lang, f)
      decreases |langs|
    {
      var lang :| lang in langs;
      langs := langs - {lang};
      var more := PhraseFilesOf(current, lang, existing);
      files := files + more;
    }
  }

  predicate HasPhraseFile(current: Meta, lang: Lang, f: File)
    requires lang in current.phrases
  {
    exists key :: key in current.phrases[lang] && f == FileName(lang, key)
  }

  method PhraseFilesOf(current: Meta, lang: Lang, existing: set<File>) returns (files: set<File>)
    requires lang in current.phrases
    ensures files == set f | f in existing && HasPhraseFile(current, lang, f)
  {
    hide FileName;
    files := {};
    var keys := current.phrases[lang].Keys;
    while keys != {}
      invariant keys <= current.phrases[lang].Keys
      invariant files == set f | f in existing && exists key :: key in current.phrases[lang] && key !in keys && f == FileName(lang, key)
      decreases |keys|
    {
      var key :| key in keys;
      keys := keys - {key};
      if FileName(lang, key) in existing { files := files + {FileName(lang, key)}; }
    }
  }

  class CacheDirectory {
    var files: set<File>
    var saved: Saved

    ghost function View(): Disk
      reads this
    {
      Disk(files, saved)
    }

    constructor (files: set<File>, saved: Saved)
      ensures View() == Disk(files, saved)
    {
      this.files, this.saved := files, saved;
    }

    /** An unlink that may fail, which reconcile ignores. */
    method Unlink(f: File, locked: set<File>)
      modifies this`files
      ensures files == old(files) - ({f} - locked)
    {
      if f !in locked { files := files - {f}; }
    }

    method ReconcileCache(c: Config, allowed: set<File>, locked: set<File>)
      modifies this
      ensures View() == Reconciled(old(View()), BuildMeta(c), allowed, locked)
    {
      hide Doomed, BuildMeta;
      var current := BuildCacheMetaFrom(c);
      var plan, _ := PlanCacheInvalidation(saved, current, allowed, files);
      var metaChanged := saved != V2(current);
      var rest := plan;
      while rest != {}
        invariant rest <= plan && saved == old(saved)
        invariant files == old(files) - ((plan - rest) - locked)
        decreases |rest|
      {
        var f :| f in rest;
        Unlink(f, locked);
        rest := rest - {f};
      }
      if metaChanged { saved := V2(current); }
    }
  }
}
