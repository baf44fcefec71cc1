/** Which synthesised files a change of settings invalidates (server/src/tts/tts.cache-meta.ts). */
module TtsCacheModel {
  import opened Prelude

  type Lang = string
  type Key = string
  type File = string

  const LANGS: seq<Lang> := ["ko", "en", "ja", "zh"]

  datatype Voice = Voice(languageCode: string, name: string)

  // The settings a file is synthesised with; `ssml` is the fingerprint of the SSML templates.
  datatype Config = Config(rate: real, ssml: string, voices: map<Lang, Voice>, phrases: map<Key, map<Lang, string>>)

  // sha12, taken as injective: a hash is what was hashed. `Other` stands for anything else a saved meta may hold.
  datatype Hash = OfGlobal(rate: real, ssml: string) | OfVoice(voice: Option<Voice>) | OfText(text: string) | Other(text: string)

  datatype Meta = Meta(rate: real, voices: map<Lang, Voice>, global: Hash, langs: map<Lang, Hash>, phrases: map<Lang, map<Key, Hash>>)

  // What cache.meta.json held: nothing readable, a value of neither version, version 1, version 2.
  datatype Saved = Missing | Unknown | V1(rate: real, voices: map<Lang, Voice>) | V2(meta: Meta)

  function FileName(lang: Lang, key: Key): File { lang + "-" + key + ".mp3" }

  function VoiceOf(c: Config, lang: Lang): Option<Voice> {
    if lang in c.voices then Some(c.voices[lang]) else if "ko" in c.voices then Some(c.voices["ko"]) else None
  }

  function PhraseText(byLang: map<Lang, string>, lang: Lang): string {
    if lang in byLang && byLang[lang] != "" then byLang[lang] else if "en" in byLang then byLang["en"] else ""
  }

  function PhraseHashes(c: Config, lang: Lang): map<Key, Hash> {
    map key | key in c.phrases :: OfText(PhraseText(c.phrases[key], lang))
  }

  function VoiceHashes(c: Config, langs: seq<Lang>): map<Lang, Hash> {
    map lang | lang in langs :: OfVoice(VoiceOf(c, lang))
  }

  function PhraseTables(c: Config, langs: seq<Lang>): map<Lang, map<Key, Hash>> {
    map lang | lang in langs :: PhraseHashes(c, lang)
  }

  function BuildMeta(c: Config): Meta {
    Meta(c.rate, c.voices, OfGlobal(c.rate, c.ssml), VoiceHashes(c, LANGS), PhraseTables(c, LANGS))
  }

  function PhrasesOf(m: Meta, lang: Lang): map<Key, Hash> {
    if lang in m.phrases then m.phrases[lang] else map[]
  }

  predicate VoiceChanged(saved: Meta, current: Meta, lang: Lang)
    requires lang in current.langs
  {
    lang !in saved.langs || saved.langs[lang] != current.langs[lang]
  }

  predicate PhraseChanged(saved: Meta, current: Meta, lang: Lang, key: Key)
    requires key in PhrasesOf(current, lang)
  {
    key !in PhrasesOf(saved, lang) || PhrasesOf(saved, lang)[key] != PhrasesOf(current, lang)[key]
  }

  /** The files of a language whose voice or, one by one, whose phrase has changed. */
  predicate LangDooms(saved: Meta, current: Meta, lang: Lang, f: File)
    requires lang in current.langs
  {
    if VoiceChanged(saved, current, lang) then lang + "-" <= f
    else exists key :: key in PhrasesOf(current, lang) && PhraseChanged(saved, current, lang, key) && f == FileName(lang, key)
  }

  predicate IsPhraseFile(current: Meta, f: File) {
    exists lang :: lang in current.phrases && exists key :: key in current.phrases[lang] && f == FileName(lang, key)
  }

  predicate WipesAll(saved: Saved, current: Meta) {
    match saved
    case V2(meta) => meta.global != current.global
    case V1(rate, voices) => rate != current.rate || voices != current.voices
    case _ => true
  }

  predicate Doomed(saved: Saved, current: Meta, allowed: set<File>, f: File) {
    f !in allowed || WipesAll(saved, current) ||
    match saved
    case V2(meta) => exists lang :: lang in current.langs && LangDooms(meta, current, lang, f)
    case V1(_, _) => IsPhraseFile(current, f)
    case _ => true
  }

  /** planCacheInvalidation's deleteFiles. */
  function DeleteFiles(saved: Saved, current: Meta, allowed: set<File>, existing: set<File>): set<File> {
    set f | f in existing && Doomed(saved, current, allowed, f)
  }

  // ---- what a file was made from ----

  predicate IsDigits(key: Key) {
    key != "" && forall c <- key :: '0' <= c <= '9'
  }

  datatype Request = Request(rate: real, ssml: string, voice: Option<Voice>, number: bool, text: string)

  /** What the provider is asked to speak for a file under these settings; None when the key is neither a phrase nor a number. */
  function Synthesis(c: Config, lang: Lang, key: Key): Option<Request> {
    if key in c.phrases then Some(Request(c.rate, c.ssml, VoiceOf(c, lang), IsDigits(key), PhraseText(c.phrases[key], lang)))
    else if IsDigits(key) then Some(Request(c.rate, c.ssml, VoiceOf(c, lang), true, key))
    else None
  }

  /** Phrase keys are words: no number is one. */
  predicate WordKeys(c: Config) {
    forall key <- c.phrases :: !IsDigits(key)
  }

  /** The files these settings allow: every phrase and every number of `numbers`, in every language. */
  function AllowedFiles(c: Config, numbers: set<Key>): set<File> {
    set lang, key | lang in LANGS && key in c.phrases.Keys + numbers :: FileName(lang, key)
  }

  // ---- the directory ----

  datatype Disk = Disk(files: set<File>, saved: Saved)

  /** The directory after unlinking these files; `locked` are those whose unlink fails. */
  function Unlinked(files: set<File>, names: seq<File>, locked: set<File>): set<File> {
    files - (ToSet(names) - locked)
  }

  /** A completed reconcile. */
  function Reconciled(d: Disk, current: Meta, allowed: set<File>, locked: set<File>): Disk {
    Disk(d.files - (DeleteFiles(d.saved, current, allowed, d.files) - locked), V2(current))
  }
}
