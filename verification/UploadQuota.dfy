/** The service of server/src/boards/board-upload-quota.service.ts as an object: each method is one stretch of code between two awaits. */
module UploadQuota {
  import opened Prelude
  import opened UploadQuotaModel

  class BoardUploadQuotaService {
    var diskBytes: nat
    var reservedBytes: nat
    var lastScanAt: int
    var invalidationVersion: nat
    var lastScannedVersion: int
    var scan: Option<Scan>
    var reservations: map<Token, nat>
    var nextToken: Token

    ghost function View(): State
      reads this
    {
      State(diskBytes, reservedBytes, lastScanAt, invalidationVersion, lastScannedVersion, scan, reservations, nextToken)
    }

    constructor ()
      ensures View() == IDLE
    {
      diskBytes, reservedBytes, lastScanAt, invalidationVersion, lastScannedVersion := 0, 0, 0, 0, -1;
      scan, reservations, nextToken := None, map[], 0;
    }

    /** The loop condition of refreshQuotaIfNeeded. */
    method NeedsRefresh(now: int) returns (stale: bool)
      ensures stale <==> !Fresh(View(), now)
    {
      stale := lastScannedVersion != invalidationVersion || now - lastScanAt >= SCAN_INTERVAL_MS;
    }

    /** reserve once the measurement is fresh; None for the 507 answer. */
    method Reserve(bytes: nat, now: int) returns (token: Option<Token>)
      requires Fresh(View(), now)
      modifies this
      ensures View() == Admit(old(View()), bytes, now)
      ensures token == if old(diskBytes + reservedBytes) + bytes <= QUOTA_BYTES then Some(old(nextToken)) else None
    {
      if diskBytes + reservedBytes + bytes > QUOTA_BYTES { return None; }
      token := Some(nextToken);
      nextToken := nextToken + 1;
      reservations := reservations[token.value := bytes];
      reservedBytes := reservedBytes + bytes;
    }

    method ReleaseReservation(token: Option<Token>)
      modifies this
      ensures View() == if token.None? then old(View()) else Release(old(View()), token.value)
    {
      if token.None? { return; }
      if token.value !in reservations { return; }
      var bytes := reservations[token.value];
      reservations := reservations - {token.value};
      reservedBytes := Max(0, reservedBytes - bytes);
      InvalidateMeasure();
    }

    method InvalidateMeasure()
      modifies this
      ensures View() == Invalidate(old(View()))
    {
      invalidationVersion := invalidationVersion + 1;
      lastScanAt := 0;
    }

    /** A scan starts unless one is running, which the caller then shares. */
    method BeginScan()
      modifies this
      ensures View() == StartScan(old(View()))
    {
      if scan.None? { scan := Some(Scan(invalidationVersion, [], map[])); }
    }

    /** The root listing arrives; a missing root counts as empty. */
    method ReceiveRoot(listing: seq<Entry>)
      requires scan.Some? && scan.value.frames == []
      modifies this
      ensures View() == ListRoot(old(View()), listing)
    {
      scan := Some(scan.value.(frames := [Frame([], listing, 0)]));
    }

    method FinishScan(now: int)
      requires Busy(View())
      modifies this
      ensures View() == CompleteScan(old(View()), now)
    {
      diskBytes := scan.value.frames[0].bytes;
      lastScannedVersion := scan.value.version;
      lastScanAt := if scan.value.version == invalidationVersion then now else 0;
      scan := None;
    }
  }

  // ---- the summation loops on a directory that does not change meanwhile ----

  datatype Node = FileNode(size: nat) | DirectoryNode(children: seq<Node>)

  function TreeBytes(nodes: seq<Node>): nat {
    if nodes == [] then 0
    else
      (match nodes[|nodes| - 1]
       case FileNode(size) => size
       case DirectoryNode(children) => TreeBytes(children)) + TreeBytes(nodes[..|nodes| - 1])
  }

  lemma {:induction false} TreeBytesGrows(nodes: seq<Node>, i: nat)
    requires i <= |nodes|
    ensures TreeBytes(nodes[..i]) <= TreeBytes(nodes)
  {
    if i == |nodes| {
      assert nodes[..i] == nodes;
    } else {
      TreeBytesGrows(nodes[..|nodes| - 1], i);
      assert nodes[..|nodes| - 1][..i] == nodes[..i];
    }
  }

  /** scanDirectory with its early exits: exact up to the quota, and over the quota exactly when the directory is. */
  method ScanDirectory(nodes: seq<Node>) returns (bytes: nat)
    ensures bytes <= QUOTA_BYTES ==> bytes == TreeBytes(nodes)
    ensures bytes > QUOTA_BYTES <==> TreeBytes(nodes) > QUOTA_BYTES
    decreases nodes
  {
    bytes := 0;
    for i := 0 to |nodes|
      invariant bytes == TreeBytes(nodes[..i]) <= QUOTA_BYTES
    {
      assert nodes[..i + 1][..i] == nodes[..i];
      TreeBytesGrows(nodes, i + 1);
      match nodes[i] {
        case FileNode(size) => bytes := bytes + size;
        case DirectoryNode(children) =>
          var inner := ScanDirectory(children);
          bytes := bytes + inner;
      }
      if bytes > QUOTA_BYTES { return; }
    }
    assert nodes[..|nodes|] == nodes;
  }
}
