/** Exactly the stale files are deleted. */
module TtsCacheProofs {
  import opened Prelude
  import opened TtsCacheModel

  lemma LangsAreShort(lang: Lang)
    requires lang in LANGS
    ensures |lang| == 2
  {
  }

  /** A file name tells its language and key. */
  lemma NamesDiffer(a: Lang, x: Key, b: Lang, y: Key)
    requires a in LANGS && b in LANGS
    ensures FileName(a, x) == FileName(b, y) ==> a == b && x == y
    ensures a + "-" <= FileName(b, y) <==> a == b
  {
    LangsAreShort(a);
    LangsAreShort(b);
    var f, g := FileName(a, x), FileName(b, y);
    assert a == f[..2] && b == g[..2] && a == (a + "-")[..2];
    assert x == f[3..|f| - 4] && y == g[3..|g| - 4];
    if a == b { assert a + "-" == g[..3]; }
    if a + "-" <= g { assert g[..3][..2] == (a + "-")[..2]; }
  }

  /** Between two settings, a file is doomed for its own language only. */
  lemma OwnLanguageDooms(saved: Meta, current: Meta, lang: Lang, key: Key, other: Lang)
    requires lang in LANGS && other in LANGS && other in current.langs && other != lang
    ensures !LangDooms(saved, current, other, FileName(lang, key))
  {
    NamesDiffer(other, key, lang, key);
    forall k | k in PhrasesOf(current, other) ensures FileName(lang, key) != FileName(other, k) { NamesDiffer(lang, key, other, k); }
  }

  /**
    * Whatever version 2 meta was saved, missing languages, missing phrase tables and foreign hashes included, a file of
    * the allowed set is deleted exactly when the global hash, its language's voice or its own phrase is not the saved one.
    */
  lemma DeletedWhenChanged(saved: Meta, next: Config, allowed: set<File>, existing: set<File>, lang: Lang, key: Key)
    requires lang in LANGS && FileName(lang, key) in allowed && FileName(lang, key) in existing
    ensures var current := BuildMeta(next);
      FileName(lang, key) in DeleteFiles(V2(saved), current, allowed, existing) <==>
      saved.global != current.global || VoiceChanged(saved, current, lang) ||
      (key in PhrasesOf(current, lang) && PhraseChanged(saved, current, lang, key))
  {
    hide FileName, LangDooms, VoiceHashes, PhraseTables, VoiceChanged, PhraseChanged, PhrasesOf;
    var current := BuildMeta(next);
    MetaLangs(next);
    assert exists l :: l in current.langs && l == lang;
    forall other | other in current.langs && other != lang ensures !LangDooms(saved, current, other, FileName(lang, key)) {
      OwnLanguageDooms(saved, current, lang, key, other);
    }
    OwnDooms(saved, current, lang, key);
  }

  lemma MetaLangs(c: Config)
    ensures forall lang :: lang in BuildMeta(c).langs <==> lang in LANGS
  {
  }

  /** A language dooms its own file for its voice or for that very phrase. */
  lemma OwnDooms(saved: Meta, current: Meta, lang: Lang, key: Key)
    requires lang in LANGS && lang in current.langs
    ensures LangDooms(saved, current, lang, FileName(lang, key)) <==>
      VoiceChanged(saved, current, lang) || (key in PhrasesOf(current, lang) && PhraseChanged(saved, current, lang, key))
  {
    hide FileName, PhraseChanged, PhrasesOf;
    NamesDiffer(lang, key, lang, key);
    forall k | k in PhrasesOf(current, lang) ensures FileName(lang, key) == FileName(lang, k) ==> k == key { NamesDiffer(lang, key, lang, k); }
  }

  /**
    * So with a meta of the old settings, an allowed file is deleted exactly when what would be synthesised for it is
    * not the same under the new settings.
    */
  lemma DeletedWhenStale(past: Config, next: Config, numbers: set<Key>, existing: set<File>, lang: Lang, key: Key)
    requires WordKeys(past) && WordKeys(next) && forall n <- numbers :: IsDigits(n)
    requires lang in LANGS && (key in next.phrases || key in numbers) && FileName(lang, key) in existing
    ensures FileName(lang, key) in DeleteFiles(V2(BuildMeta(past)), BuildMeta(next), AllowedFiles(next, numbers), existing) <==>
      Synthesis(past, lang, key) != Synthesis(next, lang, key)
  {
    hide IsDigits, FileName, DeleteFiles;
    var allowed := AllowedFiles(next, numbers);
    assert FileName(lang, key) in allowed;
    DeletedWhenChanged(BuildMeta(past), next, allowed, existing, lang, key);
    assert PhrasesOf(BuildMeta(past), lang) == PhraseHashes(past, lang) && PhrasesOf(BuildMeta(next), lang) == PhraseHashes(next, lang);
  }

  /** A file that is no phrase or number of any language is deleted, whatever the saved meta. */
  lemma StrangersAreDeleted(saved: Saved, next: Config, numbers: set<Key>, existing: set<File>, f: File)
    requires f in existing && forall lang, key :: lang in LANGS && (key in next.phrases || key in numbers) ==> f != FileName(lang, key)
    ensures f in DeleteFiles(saved, BuildMeta(next), AllowedFiles(next, numbers), existing)
  {
    hide FileName;
  }

  /** A version 1 meta of the same rate and voices spares exactly the allowed numbers. */
  lemma OldMetaSparesNumbers(next: Config, numbers: set<Key>, existing: set<File>, lang: Lang, key: Key)
    requires WordKeys(next) && forall n <- numbers :: IsDigits(n)
    requires lang in LANGS && (key in next.phrases || key in numbers) && FileName(lang, key) in existing
    ensures FileName(lang, key) in DeleteFiles(V1(next.rate, next.voices), BuildMeta(next), AllowedFiles(next, numbers), existing) <==>
      key in next.phrases
  {
    hide IsDigits, FileName;
    var f, current := FileName(lang, key), BuildMeta(next);
    assert f in AllowedFiles(next, numbers);
    assert current.phrases[lang] == PhraseHashes(next, lang);
    forall l, k | l in LANGS && k in PhraseHashes(next, l) ensures f == FileName(l, k) ==> k == key { NamesDiffer(lang, key, l, k); }
  }

  // ---- interruption and failure ----

  /** The plan judges each file by itself: planning on part of the directory plans that part of the deletions. */
  lemma PlanIsPerFile(saved: Saved, current: Meta, allowed: set<File>, files: set<File>, left: set<File>)
    requires left <= files
    ensures DeleteFiles(saved, current, allowed, left) == DeleteFiles(saved, current, allowed, files) * left
  {
    hide Doomed;
  }

  /** Stopped anywhere before the new meta is written, whatever unlinks failed, the next plan holds exactly the deletions still to be done. */
  lemma NothingLostBeforeMeta(d: Disk, current: Meta, allowed: set<File>, names: seq<File>, done: nat, locked: set<File>)
    requires ToSet(names) == DeleteFiles(d.saved, current, allowed, d.files) && done <= |names|
    ensures var left := Unlinked(d.files, names[..done], locked);
      && DeleteFiles(d.saved, current, allowed, left) == ToSet(names) * left
      && ToSet(names) - left == ToSet(names[..done]) - locked
  {
    hide Doomed;
    var left := Unlinked(d.files, names[..done], locked);
    PlanIsPerFile(d.saved, current, allowed, d.files, left);
    forall f | f in names[..done] ensures f in names { var i :| 0 <= i < done && names[..done][i] == f; assert names[i] == f; }
  }

  /** With the current meta saved, only files outside the allowed set are doomed. */
  lemma CurrentDoomsStrangers(c: Config, allowed: set<File>, f: File)
    ensures Doomed(V2(BuildMeta(c)), BuildMeta(c), allowed, f) <==> f !in allowed
  {
    hide FileName;
  }

  /** After a reconcile the next plan deletes just those files outside the allowed set whose unlink failed. */
  lemma ReplanAfterReconcile(d: Disk, c: Config, allowed: set<File>, locked: set<File>)
    ensures var after := Reconciled(d, BuildMeta(c), allowed, locked);
      DeleteFiles(after.saved, BuildMeta(c), allowed, after.files) ==
      set f | f in DeleteFiles(d.saved, BuildMeta(c), allowed, d.files) && f in locked && f !in allowed
  {
    hide BuildMeta, Doomed;
    forall f ensures Doomed(V2(BuildMeta(c)), BuildMeta(c), allowed, f) <==> f !in allowed { CurrentDoomsStrangers(c, allowed, f); }
    forall f | f !in allowed ensures Doomed(d.saved, BuildMeta(c), allowed, f) { StrangerIsDoomed(d.saved, BuildMeta(c), allowed, f); }
  }

  lemma StrangerIsDoomed(saved: Saved, current: Meta, allowed: set<File>, f: File)
    requires f !in allowed
    ensures Doomed(saved, current, allowed, f)
  {
  }

  /**
    * So a reconcile leaves nothing stale that the next plan would miss exactly when every allowed file it planned to
    * delete was unlinked: the new meta is written even after a failed unlink.
    */
  lemma LostExactlyWhenUnlinkFails(d: Disk, c: Config, allowed: set<File>, locked: set<File>)
    ensures var planned := DeleteFiles(d.saved, BuildMeta(c), allowed, d.files);
      var after := Reconciled(d, BuildMeta(c), allowed, locked);
      planned * after.files == DeleteFiles(after.saved, BuildMeta(c), allowed, after.files) <==> planned * allowed !! locked
  {
    hide BuildMeta, Doomed;
    ReplanAfterReconcile(d, c, allowed, locked);
    var planned := DeleteFiles(d.saved, BuildMeta(c), allowed, d.files);
    var after := Reconciled(d, BuildMeta(c), allowed, locked);
    assert planned * after.files == planned * locked;
    var again := DeleteFiles(after.saved, BuildMeta(c), allowed, after.files);
    SplitLocked(planned, allowed, locked, again);
  }

  lemma SplitLocked(planned: set<File>, allowed: set<File>, locked: set<File>, again: set<File>)
    requires again == set f | f in planned && f in locked && f !in allowed
    ensures planned * locked == again <==> planned * allowed !! locked
  {
    if planned * locked == again {
      forall f | f in planned * allowed ensures f !in locked { assert f in planned * locked <==> f in locked; }
    }
  }

  /** With every unlink done, planning again deletes nothing. */
  lemma ReconcileSettles(d: Disk, c: Config, allowed: set<File>)
    ensures var after := Reconciled(d, BuildMeta(c), allowed, {});
      DeleteFiles(after.saved, BuildMeta(c), allowed, after.files) == {} && Reconciled(after, BuildMeta(c), allowed, {}) == after
  {
    hide BuildMeta, Doomed;
    ReplanAfterReconcile(d, c, allowed, {});
  }

  // ---- a deletion that is lost ----

  /** One reconcile after another under the same settings; each time other unlinks may fail. */
  function ReconciledOften(d: Disk, c: Config, allowed: set<File>, locks: seq<set<File>>): Disk {
    if locks == [] then d
    else Reconciled(ReconciledOften(d, c, allowed, locks[..|locks| - 1]), BuildMeta(c), allowed, locks[|locks| - 1])
  }

  /** A stale allowed file whose unlink failed once stays, however often the cache is reconciled under the same settings. */
  lemma {:induction false} LostStays(d: Disk, c: Config, allowed: set<File>, locked: set<File>, f: File, locks: seq<set<File>>)
    requires f in DeleteFiles(d.saved, BuildMeta(c), allowed, d.files) && f in allowed && f in locked
    ensures var often := ReconciledOften(Reconciled(d, BuildMeta(c), allowed, locked), c, allowed, locks);
      f in often.files && often.saved == V2(BuildMeta(c))
  {
    hide BuildMeta, Doomed;
    if locks != [] {
      LostStays(d, c, allowed, locked, f, locks[..|locks| - 1]);
      CurrentDoomsStrangers(c, allowed, f);
    }
  }

  /** Such a file: a number spoken at the old rate, locked while the cache is reconciled with the new one. */
  lemma StaleFileStays(locks: seq<set<File>>)
    ensures var past, next := Config(1.0, "ssml", map[], map[]), Config(1.5, "ssml", map[], map[]);
      var f, allowed := FileName("ko", "1"), AllowedFiles(next, {"1"});
      var d := Disk({f}, V2(BuildMeta(past)));
      && Synthesis(past, "ko", "1") != Synthesis(next, "ko", "1")
      && f in DeleteFiles(d.saved, BuildMeta(next), allowed, d.files)
      && f in ReconciledOften(Reconciled(d, BuildMeta(next), allowed, {f}), next, allowed, locks).files
  {
    hide FileName;
    var past, next := Config(1.0, "ssml", map[], map[]), Config(1.5, "ssml", map[], map[]);
    var f, allowed := FileName("ko", "1"), AllowedFiles(next, {"1"});
    var d := Disk({f}, V2(BuildMeta(past)));
    assert "ko" in LANGS && f in allowed && IsDigits("1");
    DeletedWhenStale(past, next, {"1"}, {f}, "ko", "1");
    LostStays(d, next, allowed, {f}, f, locks);
  }
}
