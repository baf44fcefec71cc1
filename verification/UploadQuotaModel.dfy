/** Upload reservations, the shared disk scan and the files they are about, as a transition function (server/src/boards/board-upload-quota.service.ts). */
module UploadQuotaModel {
  import opened MapSum
  import opened Prelude

  const QUOTA_BYTES: nat := 1024 * 1024 * 1024
  const SCAN_INTERVAL_MS := 5000

  type Token = nat
  type Path = seq<string>

  // A file on disk; an owned one is still being written by the upload holding that reservation.
  datatype File = File(size: nat, owner: Option<Token>)

  // A directory entry as readdir reported it.
  datatype Entry = Entry(name: string, isDirectory: bool)

  // One directory being summed: the entries not looked at yet and the bytes found so far.
  datatype Frame = Frame(directory: Path, todo: seq<Entry>, bytes: nat)

  // A running scan, innermost directory last; no directory before the root listing has arrived.
  // `seen` records the size read for each path.
  datatype Scan = Scan(version: nat, frames: seq<Frame>, seen: map<Path, nat>)

  datatype State = State(
    diskBytes: nat,
    reservedBytes: nat,
    lastScanAt: int,
    invalidationVersion: nat,
    lastScannedVersion: int,
    scan: Option<Scan>,
    reservations: map<Token, nat>,
    nextToken: Token)

  // The service together with the disk it protects.
  datatype World = World(service: State, files: map<Path, File>)

  const IDLE: State := State(0, 0, 0, 0, -1, None, map[], 0)

  // ---- the service ----

  predicate Fresh(s: State, now: int) {
    s.lastScannedVersion == s.invalidationVersion && now - s.lastScanAt < SCAN_INTERVAL_MS
  }

  predicate Fits(s: State, bytes: nat) {
    s.diskBytes + s.reservedBytes + bytes <= QUOTA_BYTES
  }

  function Grant(s: State, bytes: nat): State {
    s.(reservations := s.reservations[s.nextToken := bytes],
       reservedBytes := s.reservedBytes + bytes,
       nextToken := s.nextToken + 1)
  }

  /** The last freshness test and the admission test of reserve; a request that is not admitted changes nothing. */
  function Admit(s: State, bytes: nat, now: int): State {
    if Fresh(s, now) && Fits(s, bytes) then Grant(s, bytes) else s
  }

  /** The admission test alone, run after a freshness test made at some earlier moment. */
  function AdmitLater(s: State, bytes: nat): State {
    if Fits(s, bytes) then Grant(s, bytes) else s
  }

  function Invalidate(s: State): State {
    s.(invalidationVersion := s.invalidationVersion + 1, lastScanAt := 0)
  }

  function Release(s: State, token: Token): State {
    if token !in s.reservations then s
    else
      Invalidate(s.(reservations := s.reservations - {token},
                    reservedBytes := Max(0, s.reservedBytes - s.reservations[token])))
  }

  /** A scan starts with the version of the moment, unless one is running. */
  function StartScan(s: State): State {
    if s.scan.Some? then s else s.(scan := Some(Scan(s.invalidationVersion, [], map[])))
  }

  /** readdir answered for the root. */
  function ListRoot(s: State, listing: seq<Entry>): State
    requires s.scan.Some? && s.scan.value.frames == []
  {
    s.(scan := Some(s.scan.value.(frames := [Frame([], listing, 0)])))
  }

  function Counted(f: Frame, bytes: nat): Frame {
    if f.bytes + bytes > QUOTA_BYTES then f.(todo := [], bytes := f.bytes + bytes)
    else f.(bytes := f.bytes + bytes)
  }

  function Next(f: Frame): Frame
    requires f.todo != []
  {
    f.(todo := f.todo[1..])
  }

  function EntryPath(f: Frame, e: Entry): Path {
    f.directory + [e.name]
  }

  predicate Busy(s: State) {
    s.scan.Some? && s.scan.value.frames != []
  }

  function Top(s: State): Frame
    requires Busy(s)
  {
    s.scan.value.frames[|s.scan.value.frames| - 1]
  }

  function SetTop(s: State, f: Frame): State
    requires Busy(s)
  {
    var sc := s.scan.value;
    s.(scan := Some(sc.(frames := sc.frames[..|sc.frames| - 1] + [f])))
  }

  /** stat answered for the file entry at the head of the innermost directory. */
  function ReadFile(s: State, size: nat): State
    requires Busy(s) && Top(s).todo != []
  {
    var f := Top(s);
    var counted := SetTop(s, Counted(Next(f), size));
    counted.(scan := Some(counted.scan.value.(seen := s.scan.value.seen[EntryPath(f, f.todo[0]) := size])))
  }

  /** readdir answered for the directory entry at the head of the innermost directory. */
  function EnterDirectory(s: State, listing: seq<Entry>): State
    requires Busy(s) && Top(s).todo != []
  {
    var f := Top(s);
    var advanced := SetTop(s, Next(f));
    advanced.(scan := Some(advanced.scan.value.(frames := advanced.scan.value.frames + [Frame(EntryPath(f, f.todo[0]), listing, 0)])))
  }

  /** A nested directory is summed up: its bytes go to the directory around it. */
  function LeaveDirectory(s: State): State
    requires Busy(s) && |s.scan.value.frames| > 1
  {
    var sc := s.scan.value;
    var outer := s.(scan := Some(sc.(frames := sc.frames[..|sc.frames| - 1])));
    SetTop(outer, Counted(Top(outer), Top(s).bytes))
  }

  function CompleteScan(s: State, now: int): State
    requires Busy(s)
  {
    s.(diskBytes := s.scan.value.frames[0].bytes,
       lastScannedVersion := s.scan.value.version,
       lastScanAt := if s.scan.value.version == s.invalidationVersion then now else 0,
       scan := None)
  }

  // ---- the disk ----

  /** The listing of a directory at one moment, as far as files are concerned: nothing under it is missing. */
  ghost predicate Lists(files: map<Path, File>, directory: Path, listing: seq<Entry>) {
    forall p <- files :: directory < p ==> Entry(p[|directory|], |p| > |directory| + 1) in listing
  }

  function Finished(files: map<Path, File>): map<Path, nat> {
    map p | p in files && files[p].owner.None? :: files[p].size
  }

  function WrittenBy(files: map<Path, File>, token: Token): map<Path, nat> {
    map p | p in files && files[p].owner == Some(token) :: files[p].size
  }

  function Finish(files: map<Path, File>, token: Token): map<Path, File> {
    map p | p in files :: if files[p].owner == Some(token) then files[p].(owner := None) else files[p]
  }

  datatype Event =
    | Reserve(bytes: nat)
    | ReleaseToken(token: Token)
    | InvalidateNow
    | ScanBegins
    | ScanLists(listing: seq<Entry>)
    | ScanStats
    | ScanEnters(listing: seq<Entry>)
    | ScanLeaves
    | ScanEnds
    | ScanFails
    | Write(token: Token, path: Path, size: nat)
    | Delete(path: Path)

  /** What the environment may do: listings are true, and an upload writes its own files within its reservation. */
  ghost predicate Allowed(w: World, e: Event) {
    match e
    case ScanLists(listing) => Lists(w.files, [], listing)
    case ScanEnters(listing) =>
      Busy(w.service) && Top(w.service).todo != [] ==>
        Lists(w.files, EntryPath(Top(w.service), Top(w.service).todo[0]), listing)
    case Write(token, path, size) =>
      && token in w.service.reservations && path != []
      && (path in w.files ==> w.files[path].owner == Some(token))
      && Sum(WrittenBy(w.files[path := File(size, Some(token))], token)) <= w.service.reservations[token]
    case _ => true
  }

  function Step(w: World, e: Event, now: int): World {
    var s := w.service;
    match e
    case Reserve(bytes) => w.(service := Admit(s, bytes, now))
    case ReleaseToken(token) =>
      World(Release(s, token), if token in s.reservations then Finish(w.files, token) else w.files)
    case InvalidateNow => w.(service := Invalidate(s))
    case ScanBegins => w.(service := StartScan(s))
    case ScanLists(listing) =>
      if s.scan.Some? && s.scan.value.frames == [] then w.(service := ListRoot(s, listing)) else w
    case ScanStats =>
      if Busy(s) && Top(s).todo != [] && !Top(s).todo[0].isDirectory then
        var p := EntryPath(Top(s), Top(s).todo[0]);
        if p in w.files then w.(service := ReadFile(s, w.files[p].size)) else w.(service := s.(scan := None))
      else w
    case ScanEnters(listing) =>
      if Busy(s) && Top(s).todo != [] && Top(s).todo[0].isDirectory then w.(service := EnterDirectory(s, listing)) else w
    case ScanLeaves =>
      if Busy(s) && Top(s).todo == [] && |s.scan.value.frames| > 1 then w.(service := LeaveDirectory(s)) else w
    case ScanEnds =>
      if Busy(s) && Top(s).todo == [] && |s.scan.value.frames| == 1 then w.(service := CompleteScan(s, now)) else w
    case ScanFails => w.(service := s.(scan := None))
    case Write(token, path, size) => w.(files := w.files[path := File(size, Some(token))])
    case Delete(path) => w.(files := w.files - {path})
  }

  function Run(w: World, events: seq<(int, Event)>): World
    decreases |events|
  {
    if events == [] then w
    else
      var last := events[|events| - 1];
      Step(Run(w, events[..|events| - 1]), last.1, last.0)
  }

  ghost predicate AllowedRun(w: World, events: seq<(int, Event)>)
    decreases |events|
  {
    events == [] ||
    (AllowedRun(w, events[..|events| - 1]) && Allowed(Run(w, events[..|events| - 1]), events[|events| - 1].1))
  }
}
