/** What a scan measures, and what is granted on it. */
module UploadQuotaExact {
  import opened MapSum
  import opened Prelude
  import opened UploadQuotaModel
  import opened UploadQuotaInvariants

  // ---- no path is read twice ----

  /** The only entry of a directory that leads to a path. */
  lemma LeadsIs(f: Frame, e: Entry, p: Path)
    ensures Leads(f, e, p) <==> f.directory < p && e == Entry(p[|f.directory|], |p| > |f.directory| + 1)
  {
    var q := EntryPath(f, e);
    assert q[..|f.directory|] == f.directory && q[|f.directory|] == e.name;
    if f.directory < p {
      assert p[..|f.directory|] == f.directory;
      if e.name == p[|f.directory|] { assert p[..|f.directory| + 1] == q; }
    }
    if Leads(f, e, p) { assert p[..|q|] == q && p[..|f.directory|] == q[..|f.directory|]; }
  }

  lemma CoversIs(f: Frame, p: Path)
    ensures Covers(f, p) <==> f.directory < p && Entry(p[|f.directory|], |p| > |f.directory| + 1) in f.todo
  {
    hide Leads;
    forall e ensures Leads(f, e, p) <==> f.directory < p && e == Entry(p[|f.directory|], |p| > |f.directory| + 1) { LeadsIs(f, e, p); }
  }

  /** No entry stands twice in a directory, and no two directories lead to the same path. */
  ghost predicate Apart(frames: seq<Frame>) {
    && (forall i :: 0 <= i < |frames| ==> NoDup(frames[i].todo))
    && (forall i, j, p: Path :: 0 <= i < j < |frames| && Covers(frames[i], p) ==> !Covers(frames[j], p))
  }

  /** The scan so far: what it has seen it saw once and rightly, and its sums are the sizes seen. */
  ghost predicate Exact(sc: Scan, files: map<Path, File>) {
    && Apart(sc.frames)
    && Sum(sc.seen) == Total(sc.frames)
    && (forall p <- sc.seen :: p in files && sc.seen[p] == files[p].size && !Covered(sc.frames, p))
    && (Total(sc.frames) <= QUOTA_BYTES ==> forall p <- files :: p in sc.seen || Covered(sc.frames, p))
  }

  ghost predicate ExactOrNew(s: State, files: map<Path, File>) {
    s.scan.Some? ==> (s.scan.value.frames == [] && s.scan.value.seen == map[]) || (s.scan.value.frames != [] && Exact(s.scan.value, files))
  }

  /** A listing that is complete and names nothing twice. */
  ghost predicate ExactListing(files: map<Path, File>, directory: Path, listing: seq<Entry>) {
    Lists(files, directory, listing) && NoDup(listing)
  }

  lemma ListRootExact(s: State, files: map<Path, File>, listing: seq<Entry>)
    requires s.scan.Some? && s.scan.value.frames == [] && s.scan.value.seen == map[]
    requires ExactListing(files, [], listing) && [] !in files
    ensures Exact(ListRoot(s, listing).scan.value, files)
  {
    var root := Frame([], listing, 0);
    assert [root][..0] == [];
    forall p <- files ensures Covered([root], p) {
      CoversIs(root, p);
      assert Covers([root][0], p);
    }
  }

  /** Fewer entries at the end of the list cover less. */
  lemma CoveredLess(frames: seq<Frame>, more: seq<Frame>, p: Path)
    requires |frames| == |more| && frames != [] && frames[..|frames| - 1] == more[..|frames| - 1]
    requires Covers(frames[|frames| - 1], p) ==> Covers(more[|more| - 1], p)
    ensures Covered(frames, p) ==> Covered(more, p)
  {
    if Covered(frames, p) {
      var i :| 0 <= i < |frames| && Covers(frames[i], p);
      assert frames[..|frames| - 1] == more[..|frames| - 1];
      if i < |frames| - 1 { assert frames[i] == frames[..|frames| - 1][i] == more[i]; }
      assert Covers(more[i], p);
    }
  }

  ghost predicate CoversNoMore(f: Frame, g: Frame) {
    forall p: Path :: Covers(f, p) ==> Covers(g, p)
  }

  lemma ApartLess(frames: seq<Frame>, more: seq<Frame>)
    requires |frames| == |more| && frames != [] && frames[..|frames| - 1] == more[..|frames| - 1]
    requires CoversNoMore(frames[|frames| - 1], more[|more| - 1])
    requires Apart(more) && NoDup(frames[|frames| - 1].todo)
    ensures Apart(frames)
  {
    hide Covers;
    var n := |frames| - 1;
    assert forall i :: 0 <= i < n ==> frames[i] == frames[..n][i] == more[i];
  }

  lemma NextLess(f: Frame, bytes: nat, p: Path)
    requires f.todo != [] && NoDup(f.todo)
    ensures NoDup(Counted(Next(f), bytes).todo)
    ensures Covers(Counted(Next(f), bytes), p) ==> Covers(f, p) && !Leads(f, f.todo[0], p)
  {
    hide Covers, Leads;
    CoversIs(f, p);
    CoversIs(Counted(Next(f), bytes), p);
    LeadsIs(f, f.todo[0], p);
  }

  lemma HeadCovers(s: State, p: Path)
    requires Busy(s) && Top(s).todo != [] && Leads(Top(s), Top(s).todo[0], p)
    ensures Covered(s.scan.value.frames, p)
  {
    HeadIsCovered(Top(s), p);
    assert Covers(s.scan.value.frames[|s.scan.value.frames| - 1], p);
  }

  lemma ReadFileExact(s: State, files: map<Path, File>)
    requires Busy(s) && Top(s).todo != [] && !Top(s).todo[0].isDirectory && Exact(s.scan.value, files)
    requires EntryPath(Top(s), Top(s).todo[0]) in files
    ensures Exact(ReadFile(s, files[EntryPath(Top(s), Top(s).todo[0])].size).scan.value, files)
  {
    hide Covers, Covered, Total, Apart;
    var f, frames, seen := Top(s), s.scan.value.frames, s.scan.value.seen;
    var q := EntryPath(f, f.todo[0]);
    var size := files[q].size;
    var counted := Counted(Next(f), size);
    var t := ReadFile(s, size).scan.value;
    SetTopTotal(s, counted);
    HeadCovers(s, q);
    SumSet(seen, q, size);
    ReadApart(s, size);
    forall p ensures Covered(t.frames, p) ==> Covered(frames, p) && p != q { ReadLess(s, size, p); }
    if Total(t.frames) <= QUOTA_BYTES {
      TopBound(t.frames);
      forall p <- files ensures p in t.seen || Covered(t.frames, p) {
        if p != q && p !in seen { ReadStillCovers(s, size, p); }
      }
    }
  }

  lemma ReadApart(s: State, size: nat)
    requires Busy(s) && Top(s).todo != [] && Apart(s.scan.value.frames)
    ensures Apart(SetTop(s, Counted(Next(Top(s)), size)).scan.value.frames)
  {
    hide Covers;
    var frames := s.scan.value.frames;
    var after := SetTop(s, Counted(Next(Top(s)), size)).scan.value.frames;
    assert after[..|after| - 1] == frames[..|frames| - 1];
    var f, counted := Top(s), Counted(Next(Top(s)), size);
    forall p: Path ensures Covers(counted, p) ==> Covers(f, p) { NextLess(f, size, p); }
    NextLess(f, size, []);
    assert CoversNoMore(after[|after| - 1], frames[|frames| - 1]);
    ApartLess(after, frames);
  }

  /** The file read is covered no more, and nothing new is. */
  lemma ReadLess(s: State, size: nat, p: Path)
    requires Busy(s) && Top(s).todo != [] && Apart(s.scan.value.frames)
    ensures var after := SetTop(s, Counted(Next(Top(s)), size)).scan.value.frames;
      (Covered(after, p) ==> Covered(s.scan.value.frames, p)) && (Leads(Top(s), Top(s).todo[0], p) ==> !Covered(after, p))
  {
    hide Leads, Covers;
    var frames := s.scan.value.frames;
    var n := |frames| - 1;
    var after := SetTop(s, Counted(Next(Top(s)), size)).scan.value.frames;
    assert after[..n] == frames[..n];
    NextLess(Top(s), size, p);
    CoveredLess(after, frames, p);
    if Leads(Top(s), Top(s).todo[0], p) {
      HeadIsCovered(Top(s), p);
      forall i | 0 <= i < |after| ensures !Covers(after[i], p) { assert i < n ==> after[i] == after[..n][i] == frames[i]; }
    }
  }

  lemma HeadIsCovered(f: Frame, p: Path)
    requires f.todo != [] && Leads(f, f.todo[0], p)
    ensures Covers(f, p)
  {
  }

  lemma ReadStillCovers(s: State, size: nat, p: Path)
    requires Busy(s) && Top(s).todo != [] && Covered(s.scan.value.frames, p) && !Leads(Top(s), Top(s).todo[0], p)
    requires Counted(Next(Top(s)), size).bytes <= QUOTA_BYTES
    ensures Covered(SetTop(s, Counted(Next(Top(s)), size)).scan.value.frames, p)
  {
    hide Covers, Leads;
    NextStillCovers(Top(s), p);
    CountedCovers(Next(Top(s)), size, p);
    SetTopCovers(s, Counted(Next(Top(s)), size), p);
  }

  lemma EnterDirectoryExact(s: State, files: map<Path, File>, listing: seq<Entry>)
    requires Busy(s) && Top(s).todo != [] && Top(s).todo[0].isDirectory && Exact(s.scan.value, files)
    requires ExactListing(files, EntryPath(Top(s), Top(s).todo[0]), listing)
    ensures Exact(EnterDirectory(s, listing).scan.value, files)
  {
    hide Covers, Covered, Total, Apart, Lists;
    var t := EnterDirectory(s, listing).scan.value;
    EnterTotal(s, listing);
    EnterApart(s, listing);
    forall p ensures Covered(t.frames, p) ==> Covered(s.scan.value.frames, p) { EnterLess(s, listing, p); }
    if Total(t.frames) <= QUOTA_BYTES {
      forall p <- files ensures p in t.seen || Covered(t.frames, p) {
        if p !in t.seen { EnterCovers(s, files, listing, p); }
      }
    }
  }

  /** What the listing leads to, the directory's entry led to. */
  lemma InnerLess(f: Frame, listing: seq<Entry>, p: Path)
    requires f.todo != [] && f.todo[0].isDirectory && NoDup(f.todo)
    ensures var inner := Frame(EntryPath(f, f.todo[0]), listing, 0);
      (Covers(inner, p) ==> Covers(f, p) && Leads(f, f.todo[0], p)) && (Covers(Next(f), p) ==> Covers(f, p) && !Covers(inner, p))
  {
    var inner := Frame(EntryPath(f, f.todo[0]), listing, 0);
    hide Covers;
    CoversIs(inner, p);
    CoversIs(f, p);
    CoversIs(Next(f), p);
    LeadsIs(f, f.todo[0], p);
  }

  lemma EnterFrames(s: State, listing: seq<Entry>)
    requires Busy(s) && Top(s).todo != []
    ensures var frames, t := s.scan.value.frames, EnterDirectory(s, listing).scan.value.frames; var n := |frames| - 1;
      && |t| == n + 2 && t[n] == Next(Top(s)) && t[n + 1] == Frame(EntryPath(Top(s), Top(s).todo[0]), listing, 0)
      && forall i :: 0 <= i < n ==> t[i] == frames[i]
  {
  }

  lemma EnterLess(s: State, listing: seq<Entry>, p: Path)
    requires Busy(s) && Top(s).todo != [] && Top(s).todo[0].isDirectory && Apart(s.scan.value.frames)
    ensures Covered(EnterDirectory(s, listing).scan.value.frames, p) ==> Covered(s.scan.value.frames, p)
  {
    hide Covers, Leads;
    var frames, t := s.scan.value.frames, EnterDirectory(s, listing).scan.value.frames;
    EnterFrames(s, listing);
    InnerLess(Top(s), listing, p);
    if Covered(t, p) {
      var i :| 0 <= i < |t| && Covers(t[i], p);
      assert Covers(frames[if i < |frames| then i else |frames| - 1], p);
    }
  }

  lemma EnterApart(s: State, listing: seq<Entry>)
    requires Busy(s) && Top(s).todo != [] && Top(s).todo[0].isDirectory && Apart(s.scan.value.frames) && NoDup(listing)
    ensures Apart(EnterDirectory(s, listing).scan.value.frames)
  {
    hide Covers, Leads;
    var frames, t := s.scan.value.frames, EnterDirectory(s, listing).scan.value.frames;
    var n := |frames| - 1;
    EnterFrames(s, listing);
    forall i, j, p: Path | 0 <= i < j < |t| && Covers(t[i], p) ensures !Covers(t[j], p) { InnerLess(Top(s), listing, p); }
    NextLess(Top(s), 0, []);
  }

  lemma LeaveDirectoryExact(s: State, files: map<Path, File>)
    requires Busy(s) && Top(s).todo == [] && |s.scan.value.frames| > 1 && Exact(s.scan.value, files)
    ensures Exact(LeaveDirectory(s).scan.value, files)
  {
    hide Covers, Covered, Apart;
    var sc := s.scan.value;
    var outer := s.(scan := Some(sc.(frames := sc.frames[..|sc.frames| - 1])));
    SetTopTotal(outer, Counted(Top(outer), Top(s).bytes));
    var t := LeaveDirectory(s).scan.value;
    LeaveApart(s);
    forall p ensures Covered(t.frames, p) ==> Covered(sc.frames, p) { LeaveLess(s, p); }
    if Total(t.frames) <= QUOTA_BYTES {
      forall p <- files ensures p in t.seen || Covered(t.frames, p) {
        if p !in t.seen { LeaveCovers(s, p); }
      }
    }
  }

  lemma CountedLess(f: Frame, bytes: nat, p: Path)
    requires NoDup(f.todo)
    ensures (Covers(Counted(f, bytes), p) ==> Covers(f, p)) && NoDup(Counted(f, bytes).todo)
  {
    hide Covers;
    CoversIs(f, p);
    CoversIs(Counted(f, bytes), p);
  }

  lemma LeaveFrames(s: State)
    requires Busy(s) && |s.scan.value.frames| > 1
    ensures var frames, t := s.scan.value.frames, LeaveDirectory(s).scan.value.frames; var n := |frames| - 2;
      |t| == n + 1 && t[n] == Counted(frames[n], Top(s).bytes) && forall i :: 0 <= i < n ==> t[i] == frames[i]
  {
  }

  lemma LeaveLess(s: State, p: Path)
    requires Busy(s) && |s.scan.value.frames| > 1 && Apart(s.scan.value.frames)
    ensures Covered(LeaveDirectory(s).scan.value.frames, p) ==> Covered(s.scan.value.frames, p)
  {
    hide Covers;
    var frames, t := s.scan.value.frames, LeaveDirectory(s).scan.value.frames;
    LeaveFrames(s);
    CountedLess(frames[|frames| - 2], Top(s).bytes, p);
    if Covered(t, p) {
      var i :| 0 <= i < |t| && Covers(t[i], p);
      assert Covers(frames[i], p);
    }
  }

  lemma LeaveApart(s: State)
    requires Busy(s) && |s.scan.value.frames| > 1 && Apart(s.scan.value.frames)
    ensures Apart(LeaveDirectory(s).scan.value.frames)
  {
    hide Covers;
    var frames, t := s.scan.value.frames, LeaveDirectory(s).scan.value.frames;
    LeaveFrames(s);
    forall i, j, p: Path | 0 <= i < j < |t| && Covers(t[i], p) ensures !Covers(t[j], p) {
      CountedLess(frames[|frames| - 2], Top(s).bytes, p);
    }
    CountedLess(frames[|frames| - 2], Top(s).bytes, []);
  }

  // ---- a scan of a disk that keeps still ----

  /** What an event lists is complete and names nothing twice. */
  ghost predicate ListsExactly(w: World, e: Event) {
    match e
    case ScanLists(listing) => ExactListing(w.files, [], listing)
    case ScanEnters(listing) =>
      Busy(w.service) && Top(w.service).todo != [] && Top(w.service).todo[0].isDirectory ==>
        ExactListing(w.files, EntryPath(Top(w.service), Top(w.service).todo[0]), listing)
    case _ => true
  }

  lemma StepExact(w: World, e: Event, now: int)
    requires ExactOrNew(w.service, w.files) && ListsExactly(w, e) && [] !in w.files && Step(w, e, now).files == w.files
    ensures ExactOrNew(Step(w, e, now).service, w.files)
  {
    hide Exact, ReadFile, EnterDirectory, LeaveDirectory, ListRoot;
    var s := w.service;
    match e
    case ScanLists(listing) => if s.scan.Some? && s.scan.value.frames == [] { ListRootExact(s, w.files, listing); RootFrames(s, listing); }
    case ScanStats =>
      if Busy(s) && Top(s).todo != [] && !Top(s).todo[0].isDirectory && EntryPath(Top(s), Top(s).todo[0]) in w.files {
        ReadFileExact(s, w.files);
        ReadFrames(s, w.files[EntryPath(Top(s), Top(s).todo[0])].size);
      }
    case ScanEnters(listing) =>
      if Busy(s) && Top(s).todo != [] && Top(s).todo[0].isDirectory { EnterDirectoryExact(s, w.files, listing); EnterFrames(s, listing); }
    case ScanLeaves =>
      if Busy(s) && Top(s).todo == [] && |s.scan.value.frames| > 1 { LeaveDirectoryExact(s, w.files); LeaveFrames(s); }
    case _ => OtherEvents(w, e, now);
  }

  lemma RootFrames(s: State, listing: seq<Entry>)
    requires s.scan.Some? && s.scan.value.frames == []
    ensures ListRoot(s, listing).scan.Some? && ListRoot(s, listing).scan.value.frames != []
  {
  }

  lemma ReadFrames(s: State, size: nat)
    requires Busy(s) && Top(s).todo != []
    ensures ReadFile(s, size).scan.Some? && ReadFile(s, size).scan.value.frames != []
  {
  }

  lemma OtherEvents(w: World, e: Event, now: int)
    requires !e.ScanLists? && !e.ScanStats? && !e.ScanEnters? && !e.ScanLeaves?
    ensures var s, t := w.service, Step(w, e, now).service;
      t.scan == s.scan || t.scan.None? || (t.scan.value.frames == [] && t.scan.value.seen == map[])
  {
  }

  /** From event `i` on the disk keeps still and every listing is exact. */
  ghost predicate StillFrom(w: World, events: seq<(int, Event)>, i: nat) {
    i <= |events| &&
    forall k :: i <= k < |events| ==> Run(w, events[..k + 1]).files == Run(w, events[..k]).files && ListsExactly(Run(w, events[..k]), events[k].1)
  }

  lemma {:induction false} StillRunExact(w: World, events: seq<(int, Event)>, i: nat)
    requires Starts(w) && AllowedRun(w, events) && StillFrom(w, events, i) && Run(w, events[..i]).service.scan.None?
    ensures ExactOrNew(Run(w, events).service, Run(w, events).files)
    decreases |events|
  {
    hide Step, Allowed, AllowedRun, Run, Starts, ListsExactly, ExactOrNew;
    if i == |events| {
      assert events[..i] == events;
      NoScanIsExact(Run(w, events));
    } else {
      var n := |events| - 1;
      StillBefore(w, events, i);
      RunParts(w, events);
      assert events[..n][..i] == events[..i];
      StillRunExact(w, events[..n], i);
      NoRoot(w, events[..n]);
      assert events[..n + 1] == events;
      StepExact(Run(w, events[..n]), events[n].1, events[n].0);
    }
  }

  lemma NoRoot(w: World, events: seq<(int, Event)>)
    requires Starts(w) && AllowedRun(w, events)
    ensures [] !in Run(w, events).files
  {
    RunKeeps(w, events);
  }

  lemma RunParts(w: World, events: seq<(int, Event)>)
    requires AllowedRun(w, events) && events != []
    ensures var n := |events| - 1;
      AllowedRun(w, events[..n]) && Run(w, events) == Step(Run(w, events[..n]), events[n].1, events[n].0)
  {
  }

  lemma NoScanIsExact(w: World)
    requires w.service.scan.None?
    ensures ExactOrNew(w.service, w.files)
  {
  }

  lemma StillBefore(w: World, events: seq<(int, Event)>, i: nat)
    requires StillFrom(w, events, i) && i < |events|
    ensures StillFrom(w, events[..|events| - 1], i)
  {
    hide Step, ListsExactly;
    var n := |events| - 1;
    forall k | i <= k < n
      ensures Run(w, events[..n][..k + 1]).files == Run(w, events[..n][..k]).files && ListsExactly(Run(w, events[..n][..k]), events[..n][k].1)
    {
      assert events[..n][..k + 1] == events[..k + 1] && events[..n][..k] == events[..k];
    }
  }

  /** The scan stands in front of its last step. */
  predicate AtEnd(s: State) { Busy(s) && Top(s).todo == [] && |s.scan.value.frames| == 1 }

  lemma ExactAtEnd(s: State, files: map<Path, File>)
    requires AtEnd(s) && Exact(s.scan.value, files)
    ensures var all := Sum(Bytes(files)); var bytes := s.scan.value.frames[0].bytes;
      bytes <= all && (bytes <= QUOTA_BYTES ==> bytes == all)
  {
    var sc := s.scan.value;
    assert sc.frames[..0] == [];
    assert Total(sc.frames) == sc.frames[0].bytes;
    SumMonotone(sc.seen, Bytes(files));
    forall p ensures !Covered(sc.frames, p) {}
    if Total(sc.frames) <= QUOTA_BYTES { SumMonotone(Bytes(files), sc.seen); }
  }

  /**
    * A scan of a disk that keeps still, from before it began until its end, measures exactly the bytes on the disk, or
    * more than 1 GiB when they are more. On a measure of the current version a request is then granted exactly when it
    * fits beside them and the live reservations.
    */
  lemma StillDiskIsMeasured(w: World, events: seq<(int, Event)>, i: nat, now: int, bytes: nat)
    requires Starts(w) && AllowedRun(w, events) && StillFrom(w, events, i) && Run(w, events[..i]).service.scan.None?
    requires AtEnd(Run(w, events).service)
    ensures var b := Run(w, events);
      var m := Step(b, ScanEnds, now);
      var g := Step(m, Reserve(bytes), now);
      var all := Sum(Bytes(b.files));
      && m == b.(service := m.service)
      && (if all <= 1_073_741_824 then m.service.diskBytes == all else 1_073_741_824 < m.service.diskBytes <= all)
      && m.service.lastScannedVersion == b.service.scan.value.version && m.service.scan.None?
      && m.service.reservations == b.service.reservations
      && (b.service.scan.value.version == b.service.invalidationVersion ==>
          if all + Sum(b.service.reservations) + bytes <= 1_073_741_824 then
            g.service.reservations == m.service.reservations[m.service.nextToken := bytes] && m.service.nextToken !in m.service.reservations
          else g == m)
  {
    hide Exact, AllowedRun, Run, Starts, Bytes;
    var b := Run(w, events);
    StillRunExact(w, events, i);
    ExactAtEnd(b.service, b.files);
    RunKeeps(w, events);
    BooksOf(b);
  }

  lemma BooksOf(w: World)
    requires Inv(w)
    ensures Books(w.service)
  {
  }

  // ---- reservations ----

  /** A request is granted exactly on a measure of this version, less than five seconds old, beside which it fits with what is reserved. */
  lemma RequestGranted(w: World, events: seq<(int, Event)>, bytes: nat, now: int)
    requires Starts(w) && AllowedRun(w, events)
    ensures var b := Run(w, events); var g := Step(b, Reserve(bytes), now);
      if b.service.lastScannedVersion == b.service.invalidationVersion && now - b.service.lastScanAt < 5_000
         && b.service.diskBytes + Sum(b.service.reservations) + bytes <= 1_073_741_824
      then g == b.(service := b.service.(reservations := b.service.reservations[b.service.nextToken := bytes], nextToken := b.service.nextToken + 1,
                                         reservedBytes := Sum(b.service.reservations) + bytes)) && b.service.nextToken !in b.service.reservations
      else g == b
  {
    hide AllowedRun, Run, Starts;
    RunKeeps(w, events);
    BooksOf(Run(w, events));
  }

  /** The end of a reservation frees its bytes, and no measure from before it lets anybody in. */
  lemma ReleaseFrees(w: World, events: seq<(int, Event)>, token: Token, now: int, bytes: nat)
    requires Starts(w) && AllowedRun(w, events) && token in Run(w, events).service.reservations
    ensures var b := Run(w, events); var r := Step(b, ReleaseToken(token), now);
      && r.service.reservations == b.service.reservations - {token}
      && r.service.reservedBytes == Sum(b.service.reservations - {token})
      && Sum(r.service.reservations) == Sum(b.service.reservations) - b.service.reservations[token]
      && r.service.lastScannedVersion < r.service.invalidationVersion && r.service.lastScanAt == 0
      && r.service.scan == b.service.scan && (r.service.scan.Some? ==> r.service.scan.value.version < r.service.invalidationVersion)
      && Step(r, Reserve(bytes), now) == r
  {
    hide AllowedRun, Run, Starts;
    RunKeeps(w, events);
    BooksOf(Run(w, events));
    SumWithout(Run(w, events).service.reservations, token);
  }
}
