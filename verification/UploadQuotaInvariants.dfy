/** What keeps the upload quota in every run. */
module UploadQuotaInvariants {
  import opened MapSum
  import opened Prelude
  import opened UploadQuotaModel

  // ---- the invariant ----

  ghost predicate Books(s: State) {
    && s.reservedBytes == Sum(s.reservations)
    && (forall t <- s.reservations :: t < s.nextToken)
    && s.lastScannedVersion <= s.invalidationVersion
    && (s.scan.Some? ==> s.scan.value.version <= s.invalidationVersion)
  }

  /** Only live reservations own files, and none owns more than it reserved. */
  ghost predicate OwnersLive(reservations: map<Token, nat>, files: map<Path, File>) {
    && (forall p <- files :: files[p].owner.Some? ==> files[p].owner.value in reservations)
    && (forall t <- reservations :: Sum(WrittenBy(files, t)) <= reservations[t])
  }

  /** Finished bytes and live reservations fit the quota together. */
  ghost predicate WithinQuota(reservations: map<Token, nat>, files: map<Path, File>) {
    Sum(Finished(files)) + Sum(reservations) <= QUOTA_BYTES
  }

  /** A measurement without an invalidation since it began does not miss a finished byte, unless it is over the quota anyway. */
  ghost predicate MeasureHolds(s: State, files: map<Path, File>) {
    s.lastScannedVersion == s.invalidationVersion ==> s.diskBytes > QUOTA_BYTES || Sum(Finished(files)) <= s.diskBytes
  }

  ghost function Total(frames: seq<Frame>): nat {
    if frames == [] then 0 else Total(frames[..|frames| - 1]) + frames[|frames| - 1].bytes
  }

  /** The entry still leads the scan to the path. */
  ghost predicate Leads(f: Frame, e: Entry, p: Path) {
    if e.isDirectory then EntryPath(f, e) < p else EntryPath(f, e) == p
  }

  ghost predicate Covers(f: Frame, p: Path) {
    exists e <- f.todo :: Leads(f, e, p)
  }

  ghost predicate Covered(frames: seq<Frame>, p: Path) {
    exists i :: 0 <= i < |frames| && Covers(frames[i], p)
  }

  ghost predicate SeenOrCovered(sc: Scan, files: map<Path, File>) {
    forall p <- files :: files[p].owner.None? ==> (p in sc.seen && sc.seen[p] == files[p].size) || Covered(sc.frames, p)
  }

  ghost predicate ScanHolds(s: State, files: map<Path, File>) {
    s.scan.Some? ==>
      var sc := s.scan.value;
      && Sum(sc.seen) <= Total(sc.frames)
      && (sc.frames != [] && sc.version == s.invalidationVersion ==>
          Total(sc.frames) > QUOTA_BYTES || SeenOrCovered(sc, files))
  }

  ghost predicate Inv(w: World) {
    && Books(w.service)
    && [] !in w.files
    && OwnersLive(w.service.reservations, w.files)
    && WithinQuota(w.service.reservations, w.files)
    && MeasureHolds(w.service, w.files)
    && ScanHolds(w.service, w.files)
  }

  // ---- scanning ----

  lemma SetTopTotal(s: State, f: Frame)
    requires Busy(s)
    ensures var t := SetTop(s, f).scan.value;
      && t.frames != []
      && Total(t.frames) == Total(s.scan.value.frames) - Top(s).bytes + f.bytes
  {
    var frames := s.scan.value.frames;
    var t := frames[..|frames| - 1] + [f];
    assert t[..|t| - 1] == frames[..|frames| - 1];
  }

  /** Replacing the innermost frame keeps a path covered if the frame itself does. */
  lemma SetTopCovers(s: State, f: Frame, p: Path)
    requires Busy(s) && Covered(s.scan.value.frames, p)
    requires Covers(Top(s), p) ==> Covers(f, p)
    ensures Covered(SetTop(s, f).scan.value.frames, p)
  {
    var frames := s.scan.value.frames;
    var i :| 0 <= i < |frames| && Covers(frames[i], p);
    assert Covers(SetTop(s, f).scan.value.frames[i], p);
  }

  lemma NextCovers(f: Frame, p: Path)
    requires f.todo != [] && Covers(f, p) && !Leads(f, f.todo[0], p)
    ensures Covers(Next(f), p)
  {
    var e :| e in f.todo && Leads(f, e, p);
    assert e in f.todo[1..] && Leads(Next(f), e, p);
  }

  lemma StartScanKeeps(w: World)
    requires Inv(w)
    ensures Inv(w.(service := StartScan(w.service)))
  {
  }

  /** The root listing, taken after the version, leads to every file there is. */
  lemma ListRootKeeps(w: World, listing: seq<Entry>)
    requires Inv(w) && w.service.scan.Some? && w.service.scan.value.frames == [] && Lists(w.files, [], listing)
    ensures Inv(w.(service := ListRoot(w.service, listing)))
  {
    var root := Frame([], listing, 0);
    assert [root][..0] == [];
    forall p <- w.files ensures Covered([root], p) {
      assert Leads(root, Entry(p[0], |p| > 1), p);
      assert Covers([root][0], p);
    }
  }

  lemma ReadFileKeeps(w: World)
    requires Inv(w) && Busy(w.service) && Top(w.service).todo != [] && !Top(w.service).todo[0].isDirectory
    requires EntryPath(Top(w.service), Top(w.service).todo[0]) in w.files
    ensures Inv(w.(service := ReadFile(w.service, w.files[EntryPath(Top(w.service), Top(w.service).todo[0])].size)))
  {
    var s, f := w.service, Top(w.service);
    var q := EntryPath(f, f.todo[0]);
    var size := w.files[q].size;
    var counted := Counted(Next(f), size);
    SetTopTotal(s, counted);
    SumSet(s.scan.value.seen, q, size);
    var t := ReadFile(s, size).scan.value;
    if t.version == s.invalidationVersion && Total(t.frames) <= QUOTA_BYTES {
      TopBound(t.frames);
      forall p <- w.files | w.files[p].owner.None? ensures (p in t.seen && t.seen[p] == w.files[p].size) || Covered(t.frames, p) {
        if p != q && !(p in s.scan.value.seen && s.scan.value.seen[p] == w.files[p].size) {
          if Covers(f, p) { NextCovers(f, p); assert Covers(counted, p); }
          SetTopCovers(s, counted, p);
        }
      }
    }
  }

  lemma {:induction false} TopBound(frames: seq<Frame>)
    requires frames != []
    ensures frames[|frames| - 1].bytes <= Total(frames)
  {
  }

  /** A path covered before a directory is entered stays covered: behind the directory by its listing, elsewhere as before. */
  lemma EnterCovers(s: State, files: map<Path, File>, listing: seq<Entry>, p: Path)
    requires Busy(s) && Top(s).todo != [] && Top(s).todo[0].isDirectory && p in files
    requires Lists(files, EntryPath(Top(s), Top(s).todo[0]), listing) && Covered(s.scan.value.frames, p)
    ensures Covered(EnterDirectory(s, listing).scan.value.frames, p)
  {
    hide Covers;
    var f := Top(s);
    var d := EntryPath(f, f.todo[0]);
    var outer, t := SetTop(s, Next(f)).scan.value.frames, EnterDirectory(s, listing).scan.value.frames;
    if d < p {
      ListingCovers(files, d, listing, p);
      assert Covers(t[|t| - 1], p);
    } else {
      NextStillCovers(f, p);
      SetTopCovers(s, Next(f), p);
      var i :| 0 <= i < |outer| && Covers(outer[i], p);
      assert Covers(t[i], p);
    }
  }

  lemma ListingCovers(files: map<Path, File>, directory: Path, listing: seq<Entry>, p: Path)
    requires Lists(files, directory, listing) && p in files && directory < p
    ensures Covers(Frame(directory, listing, 0), p)
  {
    assert Leads(Frame(directory, listing, 0), Entry(p[|directory|], |p| > |directory| + 1), p);
  }

  lemma NextStillCovers(f: Frame, p: Path)
    requires f.todo != [] && !Leads(f, f.todo[0], p)
    ensures Covers(f, p) ==> Covers(Next(f), p)
  {
    if Covers(f, p) { NextCovers(f, p); }
  }

  lemma EnterTotal(s: State, listing: seq<Entry>)
    requires Busy(s) && Top(s).todo != []
    ensures var t := EnterDirectory(s, listing).scan.value;
      t.frames != [] && Total(t.frames) == Total(s.scan.value.frames)
  {
    var t, outer := EnterDirectory(s, listing).scan.value.frames, SetTop(s, Next(Top(s))).scan.value.frames;
    SetTopTotal(s, Next(Top(s)));
    assert t[..|t| - 1] == outer;
  }

  lemma EnterDirectoryKeeps(w: World, listing: seq<Entry>)
    requires Inv(w) && Busy(w.service) && Top(w.service).todo != [] && Top(w.service).todo[0].isDirectory
    requires Lists(w.files, EntryPath(Top(w.service), Top(w.service).todo[0]), listing)
    ensures Inv(w.(service := EnterDirectory(w.service, listing)))
  {
    hide Covered, Total, Lists, OwnersLive, WithinQuota, EntryPath;
    var s := w.service;
    EnterTotal(s, listing);
    var t := EnterDirectory(s, listing).scan.value;
    if t.version == s.invalidationVersion && Total(t.frames) <= QUOTA_BYTES {
      forall p <- w.files | w.files[p].owner.None? ensures (p in t.seen && t.seen[p] == w.files[p].size) || Covered(t.frames, p) {
        if Covered(s.scan.value.frames, p) { EnterCovers(s, w.files, listing, p); }
      }
    }
  }

  /** Leaving a directory with nothing left in it leaves nothing uncovered, unless the sum went over the quota. */
  lemma LeaveCovers(s: State, p: Path)
    requires Busy(s) && Top(s).todo == [] && |s.scan.value.frames| > 1 && Covered(s.scan.value.frames, p)
    requires Total(LeaveDirectory(s).scan.value.frames) <= QUOTA_BYTES
    ensures Covered(LeaveDirectory(s).scan.value.frames, p)
  {
    hide Total;
    var sc := s.scan.value;
    var outer := s.(scan := Some(sc.(frames := sc.frames[..|sc.frames| - 1])));
    var counted := Counted(Top(outer), Top(s).bytes);
    var t := LeaveDirectory(s).scan.value.frames;
    TopBound(t);
    assert t[|t| - 1] == counted;
    var i :| 0 <= i < |sc.frames| && Covers(sc.frames[i], p);
    assert Covers(outer.scan.value.frames[i], p);
    CountedCovers(Top(outer), Top(s).bytes, p);
    SetTopCovers(outer, counted, p);
  }

  lemma CountedCovers(f: Frame, bytes: nat, p: Path)
    requires Counted(f, bytes).bytes <= QUOTA_BYTES
    ensures Covers(f, p) ==> Covers(Counted(f, bytes), p)
  {
    if Covers(f, p) {
      var e :| e in f.todo && Leads(f, e, p);
      assert Leads(Counted(f, bytes), e, p);
    }
  }

  lemma LeaveDirectoryKeeps(w: World)
    requires Inv(w) && Busy(w.service) && Top(w.service).todo == [] && |w.service.scan.value.frames| > 1
    ensures Inv(w.(service := LeaveDirectory(w.service)))
  {
    hide Covered, OwnersLive, WithinQuota;
    var s := w.service;
    var sc := s.scan.value;
    var outer := s.(scan := Some(sc.(frames := sc.frames[..|sc.frames| - 1])));
    SetTopTotal(outer, Counted(Top(outer), Top(s).bytes));
    var t := LeaveDirectory(s).scan.value;
    if t.version == s.invalidationVersion && Total(t.frames) <= QUOTA_BYTES {
      forall p <- w.files | w.files[p].owner.None? ensures (p in t.seen && t.seen[p] == w.files[p].size) || Covered(t.frames, p) {
        if Covered(sc.frames, p) { LeaveCovers(s, p); }
      }
    }
  }

  /** A scan that nothing has invalidated since it began measures every finished byte, or ends over the quota. */
  lemma CompleteScanKeeps(w: World, now: int)
    requires Inv(w) && Busy(w.service) && Top(w.service).todo == [] && |w.service.scan.value.frames| == 1
    ensures Inv(w.(service := CompleteScan(w.service, now)))
  {
    var sc := w.service.scan.value;
    assert sc.frames[..0] == [];
    assert Total(sc.frames) == sc.frames[0].bytes;
    if sc.version == w.service.invalidationVersion && Total(sc.frames) <= QUOTA_BYTES {
      forall p <- Finished(w.files) ensures p in sc.seen && Finished(w.files)[p] <= sc.seen[p] {
        assert !Covered(sc.frames, p);
      }
      SumMonotone(Finished(w.files), sc.seen);
    }
  }

  // ---- reservations ----

  lemma AdmitKeeps(w: World, bytes: nat, now: int)
    requires Inv(w)
    ensures Inv(w.(service := Admit(w.service, bytes, now)))
  {
    var s := w.service;
    if Fresh(s, now) && Fits(s, bytes) {
      SumSet(s.reservations, s.nextToken, bytes);
      assert WrittenBy(w.files, s.nextToken) == map[];
      var t := Admit(s, bytes, now);
      forall k <- t.reservations ensures Sum(WrittenBy(w.files, k)) <= t.reservations[k] {}
    }
  }

  /** Finishing an upload moves its bytes to the finished ones and no other upload's. */
  lemma FinishMoves(files: map<Path, File>, token: Token)
    ensures Sum(Finished(Finish(files, token))) == Sum(Finished(files)) + Sum(WrittenBy(files, token))
    ensures forall t | t != token :: WrittenBy(Finish(files, token), t) == WrittenBy(files, t)
  {
    SumParts(Finished(Finish(files, token)), Finished(files), WrittenBy(files, token));
  }

  lemma FinishKeepsOwners(reservations: map<Token, nat>, files: map<Path, File>, token: Token)
    requires OwnersLive(reservations, files) && token in reservations
    ensures OwnersLive(reservations - {token}, Finish(files, token))
  {
    FinishMoves(files, token);
    var left := reservations - {token};
    forall t <- left ensures Sum(WrittenBy(Finish(files, token), t)) <= left[t] {
      assert WrittenBy(Finish(files, token), t) == WrittenBy(files, t);
    }
  }

  lemma ReleaseKeeps(w: World, token: Token)
    requires Inv(w) && token in w.service.reservations
    ensures Inv(World(Release(w.service, token), Finish(w.files, token)))
  {
    SumWithout(w.service.reservations, token);
    FinishMoves(w.files, token);
    FinishKeepsOwners(w.service.reservations, w.files, token);
  }

  // ---- the disk ----

  /** An upload's own file is not among the finished ones, nor among another upload's. */
  lemma WriteIsOwn(files: map<Path, File>, token: Token, path: Path, size: nat)
    requires path in files ==> files[path].owner == Some(token)
    ensures var after := files[path := File(size, Some(token))];
      && Finished(after) == Finished(files)
      && forall t | t != token :: WrittenBy(after, t) == WrittenBy(files, t)
  {
  }

  lemma WriteKeeps(w: World, token: Token, path: Path, size: nat)
    requires Inv(w) && Allowed(w, Write(token, path, size))
    ensures Inv(w.(files := w.files[path := File(size, Some(token))]))
  {
    var after := w.files[path := File(size, Some(token))];
    WriteIsOwn(w.files, token, path, size);
    forall t <- w.service.reservations ensures Sum(WrittenBy(after, t)) <= w.service.reservations[t] {
      if t != token { assert WrittenBy(after, t) == WrittenBy(w.files, t); }
    }
  }

  lemma DeleteKeeps(w: World, path: Path)
    requires Inv(w)
    ensures Inv(w.(files := w.files - {path}))
  {
    var after := w.files - {path};
    SumMonotone(Finished(after), Finished(w.files));
    forall t <- w.service.reservations ensures Sum(WrittenBy(after, t)) <= w.service.reservations[t] {
      SumMonotone(WrittenBy(after, t), WrittenBy(w.files, t));
    }
  }

  lemma StepKeeps(w: World, e: Event, now: int)
    requires Inv(w) && Allowed(w, e)
    ensures Inv(Step(w, e, now))
  {
    var s := w.service;
    match e
    case Reserve(bytes) => AdmitKeeps(w, bytes, now);
    case ReleaseToken(token) => if token in s.reservations { ReleaseKeeps(w, token); }
    case InvalidateNow =>
    case ScanBegins => StartScanKeeps(w);
    case ScanLists(listing) => if s.scan.Some? && s.scan.value.frames == [] { ListRootKeeps(w, listing); }
    case ScanStats =>
      if Busy(s) && Top(s).todo != [] && !Top(s).todo[0].isDirectory && EntryPath(Top(s), Top(s).todo[0]) in w.files {
        ReadFileKeeps(w);
      }
    case ScanEnters(listing) =>
      if Busy(s) && Top(s).todo != [] && Top(s).todo[0].isDirectory { EnterDirectoryKeeps(w, listing); }
    case ScanLeaves =>
      if Busy(s) && Top(s).todo == [] && |s.scan.value.frames| > 1 { LeaveDirectoryKeeps(w); }
    case ScanEnds =>
      if Busy(s) && Top(s).todo == [] && |s.scan.value.frames| == 1 { CompleteScanKeeps(w, now); }
    case ScanFails =>
    case Write(token, path, size) => WriteKeeps(w, token, path, size);
    case Delete(path) => DeleteKeeps(w, path);
  }

  /** A disk within the quota, nothing reserved, nothing measured yet. */
  ghost predicate Starts(w: World) {
    && w.service == IDLE && [] !in w.files
    && (forall p <- w.files :: w.files[p].owner.None?)
    && Sum(Finished(w.files)) <= QUOTA_BYTES
  }

  lemma {:induction false} RunKeeps(w: World, events: seq<(int, Event)>)
    requires Starts(w) && AllowedRun(w, events)
    ensures Inv(Run(w, events))
  {
    if events != [] {
      var last := events[|events| - 1];
      RunKeeps(w, events[..|events| - 1]);
      StepKeeps(Run(w, events[..|events| - 1]), last.1, last.0);
    }
  }

  // ---- what the service promises ----

  function Bytes(files: map<Path, File>): map<Path, nat> {
    map p | p in files :: files[p].size
  }

  lemma NothingReserved(files: map<Path, File>)
    requires OwnersLive(map[], files)
    ensures Bytes(files) == Finished(files) && Sum<Token>(map[]) == 0
  {
  }

  lemma FinishKeepsBytes(files: map<Path, File>, token: Token)
    ensures Bytes(Finish(files, token)) == Bytes(files)
  {
  }

  /** Everything on disk, partial uploads included, is finished or reserved. */
  lemma {:induction false} DiskWithinBooks(reservations: map<Token, nat>, files: map<Path, File>)
    requires OwnersLive(reservations, files)
    ensures Sum(Bytes(files)) <= Sum(Finished(files)) + Sum(reservations)
    decreases |reservations|
  {
    hide Sum, Bytes, Finished, Finish;
    if reservations == map[] {
      NothingReserved(files);
    } else {
      var t :| t in reservations;
      FinishMoves(files, t);
      SumWithout(reservations, t);
      FinishKeepsOwners(reservations, files, t);
      FinishKeepsBytes(files, t);
      DiskWithinBooks(reservations - {t}, Finish(files, t));
    }
  }

  /** In every run: finished bytes plus live reservations fit the quota, and so does everything on the disk. */
  lemma QuotaNeverExceeded(w: World, events: seq<(int, Event)>)
    requires Starts(w) && AllowedRun(w, events)
    ensures var t := Run(w, events);
      && Sum(Finished(t.files)) + Sum(t.service.reservations) <= QUOTA_BYTES
      && Sum(Bytes(t.files)) <= QUOTA_BYTES
      && t.service.reservedBytes == Sum(t.service.reservations)
  {
    RunKeeps(w, events);
    DiskWithinBooks(Run(w, events).service.reservations, Run(w, events).files);
  }

  /** The scan that measured version `v` began at event `i`. */
  ghost predicate BeganAt(w: World, events: seq<(int, Event)>, v: int, i: nat) {
    && i < |events| && events[i].1.ScanBegins?
    && Run(w, events[..i]).service.scan.None?
    && Run(w, events[..i]).service.invalidationVersion == v
  }

  ghost predicate Began(w: World, events: seq<(int, Event)>, v: int) {
    exists i: nat :: BeganAt(w, events, v, i)
  }

  /** Every measurement, finished or running, has a beginning. */
  lemma {:induction false} ScansBegan(w: World, events: seq<(int, Event)>)
    requires w.service == IDLE
    ensures var s := Run(w, events).service;
      && (s.lastScannedVersion >= 0 ==> Began(w, events, s.lastScannedVersion))
      && (s.scan.Some? ==> Began(w, events, s.scan.value.version))
    decreases |events|
  {
    hide Step;
    if events != [] {
      var n := |events| - 1;
      ScansBegan(w, events[..n]);
      ScanSteps(Run(w, events[..n]), events[n].1, events[n].0);
      var before, after := Run(w, events[..n]).service, Run(w, events).service;
      if before.lastScannedVersion >= 0 { BeganBefore(w, events, before.lastScannedVersion); }
      if before.scan.Some? { BeganBefore(w, events, before.scan.value.version); }
      else if after.scan.Some? { assert BeganAt(w, events, after.scan.value.version, n); }
    }
  }

  /** One step: a running scan keeps its version, a new one takes the version of the moment, a new measurement that of its scan. */
  lemma ScanSteps(w: World, e: Event, now: int)
    ensures var before, after := w.service, Step(w, e, now).service;
      && (after.scan.Some? && before.scan.Some? ==> after.scan.value.version == before.scan.value.version)
      && (after.scan.Some? && before.scan.None? ==> e.ScanBegins? && after.scan.value.version == before.invalidationVersion)
      && (after.lastScannedVersion == before.lastScannedVersion ||
          (before.scan.Some? && after.lastScannedVersion == before.scan.value.version))
  {
  }

  lemma BeganBefore(w: World, events: seq<(int, Event)>, v: int)
    requires events != [] && Began(w, events[..|events| - 1], v)
    ensures Began(w, events, v)
  {
    var front := events[..|events| - 1];
    var i: nat :| BeganAt(w, front, v, i);
    assert front[..i] == events[..i] && BeganAt(w, events, v, i);
  }

  lemma {:induction false} VersionGrows(w: World, events: seq<(int, Event)>, i: nat)
    requires i <= |events|
    ensures Run(w, events[..i]).service.invalidationVersion <= Run(w, events).service.invalidationVersion
    decreases |events|
  {
    if i == |events| {
      assert events[..i] == events;
    } else {
      var front := events[..|events| - 1];
      VersionGrows(w, front, i);
      assert front[..i] == events[..i];
    }
  }

  /** No release and no invalidation between event `i` and the end. */
  ghost predicate QuietSince(w: World, events: seq<(int, Event)>, i: nat) {
    forall k: nat :: i <= k <= |events| ==>
      Run(w, events[..k]).service.invalidationVersion == Run(w, events).service.invalidationVersion
  }

  lemma SameVersionIsQuiet(w: World, events: seq<(int, Event)>, i: nat)
    requires i <= |events|
    requires Run(w, events[..i]).service.invalidationVersion == Run(w, events).service.invalidationVersion
    ensures QuietSince(w, events, i)
  {
    forall k: nat | i <= k <= |events|
      ensures Run(w, events[..k]).service.invalidationVersion == Run(w, events).service.invalidationVersion
    {
      VersionGrows(w, events, k);
      VersionGrows(w, events[..k], i);
      assert events[..k][..i] == events[..i];
    }
  }

  /** Every grant rests on a scan after whose beginning nothing was released or invalidated. */
  lemma GrantRestsOnLaterScan(w: World, events: seq<(int, Event)>, bytes: nat, now: int)
    requires w.service == IDLE
    requires Fresh(Run(w, events).service, now) && Fits(Run(w, events).service, bytes)
    ensures exists i: nat ::
      BeganAt(w, events, Run(w, events).service.lastScannedVersion, i) && QuietSince(w, events, i)
  {
    ScansBegan(w, events);
    var i: nat :| BeganAt(w, events, Run(w, events).service.lastScannedVersion, i);
    SameVersionIsQuiet(w, events, i);
  }

  // ---- the step between the two tests ----

  /** If nothing was released or invalidated since the freshness test, admitting later is as safe as admitting then. */
  lemma AdmitLaterKeeps(w: World, bytes: nat)
    requires Inv(w) && w.service.lastScannedVersion == w.service.invalidationVersion
    ensures Inv(w.(service := AdmitLater(w.service, bytes)))
  {
    AdmitKeeps(w.(service := w.service.(lastScanAt := 0)), bytes, 0);
  }

  /** A refusal, or a grant of nothing, is safe at any time. */
  lemma EmptyGrantKeeps(w: World, bytes: nat)
    requires Inv(w) && (!Fits(w.service, bytes) || bytes == 0)
    ensures Inv(w.(service := AdmitLater(w.service, bytes)))
  {
    if Fits(w.service, bytes) {
      SumSet(w.service.reservations, w.service.nextToken, 0);
      assert WrittenBy(w.files, w.service.nextToken) == map[];
      var t := Grant(w.service, 0);
      forall k <- t.reservations ensures Sum(WrittenBy(w.files, k)) <= t.reservations[k] {}
    }
  }

  /** The worlds that keep the invariants and agree with `s` on everything but the scan that may be running. */
  ghost predicate Alike(w: World, s: State) {
    Inv(w) && w.service == s.(scan := w.service.scan)
  }

  /** A disk that the service knows nothing of: everything unreserved is taken by one finished file. */
  function FullDisk(s: State): map<Path, File>
    requires s.reservedBytes <= QUOTA_BYTES
  {
    map[["photo"] := File(QUOTA_BYTES - s.reservedBytes, None)]
  }

  lemma FullDiskHolds(s: State, reservations: map<Token, nat>)
    requires Books(s) && s.reservations == reservations && Sum(reservations) <= QUOTA_BYTES
    requires s.lastScannedVersion != s.invalidationVersion
    ensures var full := World(s.(scan := None), FullDisk(s));
      Alike(full, s) && Sum(Finished(full.files)) + s.reservedBytes == QUOTA_BYTES
  {
    var files := FullDisk(s);
    var free := QUOTA_BYTES - s.reservedBytes;
    assert Finished(files) == map[][["photo"] := free];
    SumSet<Path>(map[], ["photo"], free);
    forall t <- reservations ensures Sum(WrittenBy(files, t)) <= reservations[t] { assert WrittenBy(files, t) == map[]; }
  }

  lemma InvBooks(w: World)
    requires Inv(w)
    ensures Books(w.service) && Sum(w.service.reservations) <= QUOTA_BYTES
  {
  }

  lemma GrantExceeds(w: World, bytes: nat)
    requires Inv(w) && Fits(w.service, bytes) && bytes > 0
    requires Sum(Finished(w.files)) + w.service.reservedBytes == QUOTA_BYTES
    ensures !WithinQuota(AdmitLater(w.service, bytes).reservations, w.files)
    ensures !Inv(w.(service := AdmitLater(w.service, bytes)))
  {
    SumSet(w.service.reservations, w.service.nextToken, bytes);
  }

  /**
    * An admission test made some time after the freshness test is safe, whatever the disk holds and whatever scan
    * runs, exactly when it refuses, grants nothing, or nothing was released or invalidated since the measurement.
    */
  lemma AdmitLaterIsSafe(w: World, bytes: nat)
    requires Inv(w)
    ensures (forall v :: Alike(v, w.service) ==> Inv(v.(service := AdmitLater(v.service, bytes)))) <==>
      !Fits(w.service, bytes) || bytes == 0 || w.service.lastScannedVersion == w.service.invalidationVersion
  {
    hide Inv;
    var s := w.service;
    if !Fits(s, bytes) || bytes == 0 {
      forall v | Alike(v, s) ensures Inv(v.(service := AdmitLater(v.service, bytes))) { EmptyGrantKeeps(v, bytes); }
    } else if s.lastScannedVersion == s.invalidationVersion {
      forall v | Alike(v, s) ensures Inv(v.(service := AdmitLater(v.service, bytes))) { AdmitLaterKeeps(v, bytes); }
    } else {
      InvBooks(w);
      FullDiskHolds(s, s.reservations);
      var full := World(s.(scan := None), FullDisk(s));
      GrantExceeds(full, bytes);
      assert Alike(full, s);
    }
  }

  // ---- a run in which the later test admits too much ----

  const PHOTO_BYTES: nat := 5 * 1024 * 1024

  const ROOM := QUOTA_BYTES - PHOTO_BYTES

  /** A disk that leaves room for one more photo of the largest size. */
  const NEARLY_FULL: map<Path, File> := map[["old"] := File(ROOM, None)]

  /** A run that one allowed event extends. */
  ghost predicate Reaches(events: seq<(int, Event)>, w: World) {
    var start := World(IDLE, NEARLY_FULL);
    AllowedRun(start, events) && Run(start, events) == w
  }

  lemma ReachesNext(events: seq<(int, Event)>, w: World, now: int, e: Event)
    requires Reaches(events, w) && Allowed(w, e)
    ensures Reaches(events + [(now, e)], Step(w, e, now))
  {
    hide Step, Allowed;
    assert (events + [(now, e)])[..|events|] == events;
  }

  function Scanning(frames: seq<Frame>, seen: map<Path, nat>): World {
    World(IDLE.(scan := Some(Scan(0, frames, seen))), NEARLY_FULL)
  }

  const MEASURED: State := State(ROOM, 0, 1, 0, 0, None, map[], 0)

  lemma BeginsScanning()
    ensures Step(World(IDLE, NEARLY_FULL), ScanBegins, 0) == Scanning([], map[])
  {
  }

  lemma ListsRoot()
    ensures var listing := [Entry("old", false)];
      Allowed(Scanning([], map[]), ScanLists(listing)) &&
      Step(Scanning([], map[]), ScanLists(listing), 0) == Scanning([Frame([], listing, 0)], map[])
  {
  }

  lemma StatsPhoto()
    ensures Step(Scanning([Frame([], [Entry("old", false)], 0)], map[]), ScanStats, 0) ==
      Scanning([Frame([], [], ROOM)], map[["old"] := ROOM])
  {
    var f := Frame([], [Entry("old", false)], 0);
    var s := Scanning([f], map[]).service;
    assert Busy(s) && Top(s) == f && EntryPath(f, f.todo[0]) == ["old"];
    assert f.todo[1..] == [];
    assert Counted(Next(f), ROOM) == Frame([], [], ROOM);
    assert s.scan.value.frames[..0] + [Frame([], [], ROOM)] == [Frame([], [], ROOM)];
    assert SetTop(s, Frame([], [], ROOM)).scan.value.frames == [Frame([], [], ROOM)];
    assert ReadFile(s, ROOM) == Scanning([Frame([], [], ROOM)], map[][["old"] := ROOM]).service;
  }

  lemma EndsScanning()
    ensures Step(Scanning([Frame([], [], ROOM)], map[["old"] := ROOM]), ScanEnds, 1) == World(MEASURED, NEARLY_FULL)
  {
  }

  /** The disk is measured while nothing is reserved. */
  lemma Measures() returns (events: seq<(int, Event)>)
    ensures Reaches(events, World(MEASURED, NEARLY_FULL))
  {
    hide Step, Allowed, Reaches;
    var listing := [Entry("old", false)];
    events := [];
    NothingReaches();
    BeginsScanning();
    AlwaysAllowed(World(IDLE, NEARLY_FULL), ScanBegins);
    ReachesNext(events, World(IDLE, NEARLY_FULL), 0, ScanBegins);
    events := events + [(0, ScanBegins)];
    ListsRoot();
    ReachesNext(events, Scanning([], map[]), 0, ScanLists(listing));
    events := events + [(0, ScanLists(listing))];
    StatsPhoto();
    AlwaysAllowed(Scanning([Frame([], listing, 0)], map[]), ScanStats);
    ReachesNext(events, Scanning([Frame([], listing, 0)], map[]), 0, ScanStats);
    events := events + [(0, ScanStats)];
    EndsScanning();
    AlwaysAllowed(Scanning([Frame([], [], ROOM)], map[["old"] := ROOM]), ScanEnds);
    ReachesNext(events, Scanning([Frame([], [], ROOM)], map[["old"] := ROOM]), 1, ScanEnds);
    events := events + [(1, ScanEnds)];
  }

  lemma NothingReaches()
    ensures Reaches([], World(IDLE, NEARLY_FULL))
  {
  }

  lemma AlwaysAllowed(w: World, e: Event)
    requires !e.ScanLists? && !e.ScanEnters? && !e.Write?
    ensures Allowed(w, e)
  {
  }

  const RESERVED: State := State(ROOM, PHOTO_BYTES, 1, 0, 0, None, map[0 := PHOTO_BYTES], 1)

  const FILLED: map<Path, File> := NEARLY_FULL[["new"] := File(PHOTO_BYTES, Some(0))]

  lemma Reserves()
    ensures Step(World(MEASURED, NEARLY_FULL), Reserve(PHOTO_BYTES), 1) == World(RESERVED, NEARLY_FULL)
  {
    assert map[][0 := PHOTO_BYTES] == map[0 := PHOTO_BYTES];
  }

  lemma WritesPhoto()
    ensures Allowed(World(RESERVED, NEARLY_FULL), Write(0, ["new"], PHOTO_BYTES))
    ensures Step(World(RESERVED, NEARLY_FULL), Write(0, ["new"], PHOTO_BYTES), 2) == World(RESERVED, FILLED)
  {
    assert WrittenBy(FILLED, 0) == map[][["new"] := PHOTO_BYTES];
    SumSet<Path>(map[], ["new"], PHOTO_BYTES);
  }

  lemma Releases()
    ensures var released := Step(World(RESERVED, FILLED), ReleaseToken(0), 2);
      && released.service == State(ROOM, 0, 0, 1, 0, None, map[], 1)
      && Sum(Finished(released.files)) == QUOTA_BYTES
  {
    var released := Step(World(RESERVED, FILLED), ReleaseToken(0), 2);
    assert map[0 := PHOTO_BYTES] - {0} == map[];
    var before: map<Path, nat> := map[["old"] := ROOM];
    assert Finished(released.files) == before[["new"] := PHOTO_BYTES];
    assert before == map[][["old"] := ROOM];
    SumSet<Path>(map[], ["old"], ROOM);
    SumSet<Path>(before, ["new"], PHOTO_BYTES);
  }

  /** From a disk within the quota, everything measured, a photo is uploaded into the room that is left. */
  lemma Uploads() returns (events: seq<(int, Event)>)
    ensures Reaches(events, World(RESERVED, FILLED))
  {
    hide Step, Allowed, Reaches;
    events := Measures();
    Reserves();
    AlwaysAllowed(World(MEASURED, NEARLY_FULL), Reserve(PHOTO_BYTES));
    ReachesNext(events, World(MEASURED, NEARLY_FULL), 1, Reserve(PHOTO_BYTES));
    events := events + [(1, Reserve(PHOTO_BYTES))];
    WritesPhoto();
    ReachesNext(events, World(RESERVED, NEARLY_FULL), 2, Write(0, ["new"], PHOTO_BYTES));
    events := events + [(2, Write(0, ["new"], PHOTO_BYTES))];
  }

  /**
    * A run from a disk within the quota: another request passes its freshness test, the finished photo is released,
    * and the admission test that then runs grants 5 MiB on a full disk.
    */
  lemma AdmitLaterExceeds() returns (start: World, events: seq<(int, Event)>)
    ensures Starts(start) && AllowedRun(start, events) && Fresh(Run(start, events).service, 2)
    ensures var released := Step(Run(start, events), ReleaseToken(0), 2);
      var granted := AdmitLater(released.service, PHOTO_BYTES);
      && 0 in Run(start, events).service.reservations && granted != released.service
      && Sum(Finished(released.files)) == QUOTA_BYTES
      && Sum(Finished(released.files)) + Sum(granted.reservations) == QUOTA_BYTES + PHOTO_BYTES
  {
    start := World(IDLE, NEARLY_FULL);
    assert Starts(start) by { assert Finished(NEARLY_FULL) == map[][["old"] := ROOM]; SumSet<Path>(map[], ["old"], ROOM); }
    hide Run, AllowedRun, Step;
    events := Uploads();
    Releases();
    SumSet<Token>(map[], 1, PHOTO_BYTES);
  }
}
