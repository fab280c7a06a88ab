/** Snapshot commits of storage/iceberg/snapshot.go behind a compare-and-swap catalog
    (Apache Iceberg Table Spec v2, sections "Snapshots" and "Sequence Numbers"). */
module Iceberg {
  import opened Common

  datatype Snapshot = Snapshot(
    snapshotId: int, parent: Option<int>, sequenceNumber: int, timestampMs: int, manifestList: string)

  datatype LogEntry = LogEntry(timestampMs: int, snapshotId: int)

  /** The table's identity and the fields that Commit reads or writes. */
  datatype TableMetadata = TableMetadata(
    tableUuid: string, location: string, lastSequenceNum: int, lastUpdatedMs: int,
    currentSnapshotId: Option<int>, snapshots: seq<Snapshot>, snapshotLog: seq<LogEntry>)

  function NewTableMetadata(uuid: string, location: string, now: int): TableMetadata {
    TableMetadata(uuid, location, 0, now, None, [], [])
  }

  function Commit(m: TableMetadata, snap: Snapshot, now: int): TableMetadata {
    var stamped := snap.(
      timestampMs := if snap.timestampMs == 0 then now else snap.timestampMs,
      sequenceNumber := m.lastSequenceNum + 1);
    m.(lastSequenceNum := stamped.sequenceNumber,
       lastUpdatedMs := now,
       snapshots := m.snapshots + [stamped],
       currentSnapshotId := Some(stamped.snapshotId),
       snapshotLog := m.snapshotLog + [LogEntry(stamped.timestampMs, stamped.snapshotId)])
  }

  /** Snapshot i has sequence number i + 1 and matches log entry i; the last one is current. */
  predicate WellFormed(m: TableMetadata) {
    && m.lastSequenceNum == |m.snapshots| == |m.snapshotLog|
    && (forall i :: 0 <= i < |m.snapshots| ==>
          && m.snapshots[i].sequenceNumber == i + 1
          && m.snapshotLog[i] == LogEntry(m.snapshots[i].timestampMs, m.snapshots[i].snapshotId))
    && m.currentSnapshotId == if m.snapshots == [] then None else Some(m.snapshots[|m.snapshots| - 1].snapshotId)
  }

  // ------------------------------------------------------------------
  // Commit on slices
  // ------------------------------------------------------------------

  /** A metadata document as the code holds it: the two lists are arrays, shared by whoever
      copies the document. */
  datatype Document = Document(
    tableUuid: string, location: string, lastSequenceNum: int, lastUpdatedMs: int,
    currentSnapshotId: Option<int>, snapshots: array<Snapshot>, snapshotLog: array<LogEntry>)

  ghost function Contents(d: Document): TableMetadata
    reads d.snapshots, d.snapshotLog
  {
    TableMetadata(d.tableUuid, d.location, d.lastSequenceNum, d.lastUpdatedMs, d.currentSnapshotId,
                  d.snapshots[..], d.snapshotLog[..])
  }

  /** append(append([]T{}, a...), x): a new array, whatever the old one's spare capacity. */
  method AppendCopy<T>(a: array<T>, x: T) returns (b: array<T>)
    ensures fresh(b) && b[..] == a[..] + [x]
  {
    b := new T[a.Length + 1](i requires 0 <= i <= a.Length reads a => if i < a.Length then a[i] else x);
  }

  /** The result holds arrays of its own, so no later change to it can reach the input; the
      input and every other document are as they were. */
  method CommitDocument(d: Document, snap: Snapshot, now: int) returns (out: Document)
    ensures fresh(out.snapshots) && fresh(out.snapshotLog)
    ensures Contents(out) == Commit(Contents(d), snap, now)
    ensures Contents(d) == old(Contents(d))
  {
    var stamped := snap;
    if stamped.timestampMs == 0 {
      stamped := stamped.(timestampMs := now);
    }
    stamped := stamped.(sequenceNumber := d.lastSequenceNum + 1);
    out := d.(lastSequenceNum := stamped.sequenceNumber, lastUpdatedMs := now);
    var snapshots := AppendCopy(d.snapshots, stamped);
    out := out.(snapshots := snapshots, currentSnapshotId := Some(stamped.snapshotId));
    var entries := AppendCopy(d.snapshotLog, LogEntry(stamped.timestampMs, stamped.snapshotId));
    out := out.(snapshotLog := entries);
  }

  // ------------------------------------------------------------------
  // Writers behind a compare-and-swap
  // ------------------------------------------------------------------

  /** The catalog, the versions writers hold, and the history of successful commits. */
  datatype Catalog = Catalog(
    versions: seq<TableMetadata>,           // every published version, the last is current
    held: map<nat, nat>,                    // writer -> index of the version it read
    committed: seq<(Snapshot, nat)>)        // successful commits: snapshot, version produced

  datatype Step =
    | Read(w: nat)
    | Swap(w: nat, snap: Snapshot, now: int)   // Commit on the held version, then compare-and-swap

  function Init(uuid: string, location: string, now: int): Catalog {
    Catalog([NewTableMetadata(uuid, location, now)], map[], [])
  }

  predicate Enabled(c: Catalog, step: Step) {
    c.versions != [] && (step.Swap? ==> step.w in c.held && c.held[step.w] < |c.versions|)
  }

  function Apply(c: Catalog, step: Step): Catalog
    requires Enabled(c, step)
  {
    match step
    case Read(w) => c.(held := c.held[w := |c.versions| - 1])
    case Swap(w, snap, now) =>
      if c.held[w] == |c.versions| - 1 then
        var next := Commit(c.versions[c.held[w]], snap, now);
        Catalog(c.versions + [next], c.held - {w}, c.committed + [(snap, |c.versions|)])
      else c.(held := c.held - {w})
  }

  predicate ValidRun(c: Catalog, steps: seq<Step>)
    decreases steps
  {
    steps == [] || (Enabled(c, steps[0]) && ValidRun(Apply(c, steps[0]), steps[1..]))
  }

  function Final(c: Catalog, steps: seq<Step>): Catalog
    requires ValidRun(c, steps)
    decreases steps
  {
    if steps == [] then c else Final(Apply(c, steps[0]), steps[1..])
  }

  predicate Extends(a: TableMetadata, b: TableMetadata) {
    && a.snapshots <= b.snapshots && a.snapshotLog <= b.snapshotLog
    && a.tableUuid == b.tableUuid && a.location == b.location
  }

  /** Entry n is this snapshot as the writer gave it, up to the stamps Commit fills in. */
  predicate SameSnapshot(snaps: seq<Snapshot>, n: nat, snap: Snapshot) {
    && n < |snaps| && snaps[n].snapshotId == snap.snapshotId && snaps[n].manifestList == snap.manifestList
    && snaps[n].parent == snap.parent && (snap.timestampMs != 0 ==> snaps[n].timestampMs == snap.timestampMs)
  }

  ghost predicate Inv(c: Catalog) {
    && c.versions != []
    && (forall v :: 0 <= v < |c.versions| ==> WellFormed(c.versions[v]) && |c.versions[v].snapshots| == v)
    && (forall u, v :: 0 <= u <= v < |c.versions| ==> Extends(c.versions[u], c.versions[v]))
    && |c.committed| == |c.versions| - 1
    && (forall n :: 0 <= n < |c.committed| ==> c.committed[n].1 == n + 1)
    && (forall n :: 0 <= n < |c.committed| ==> SameSnapshot(c.versions[n + 1].snapshots, n, c.committed[n].0))
  }

  lemma CommitKeepsWellFormed(m: TableMetadata, snap: Snapshot, now: int)
    requires WellFormed(m)
    ensures WellFormed(Commit(m, snap, now))
    ensures Extends(m, Commit(m, snap, now))
    ensures SameSnapshot(Commit(m, snap, now).snapshots, |m.snapshots|, snap)
    ensures Commit(m, snap, now).lastUpdatedMs == now
    ensures snap.timestampMs == 0 ==> Commit(m, snap, now).snapshots[|m.snapshots|].timestampMs == now
  {
  }

  lemma PublishKeepsInv(c: Catalog, snap: Snapshot, now: int, c': Catalog)
    requires Inv(c)
    requires c'.versions == c.versions + [Commit(c.versions[|c.versions| - 1], snap, now)]
    requires c'.committed == c.committed + [(snap, |c.versions|)]
    ensures Inv(c')
  {
    var top := |c.versions| - 1;
    CommitKeepsWellFormed(c.versions[top], snap, now);
    forall u, v | 0 <= u <= v < |c'.versions|
      ensures Extends(c'.versions[u], c'.versions[v])
    {
      if v == |c.versions| && u < v {
        assert Extends(c.versions[u], c.versions[top]);
      }
    }
  }

  lemma StepKeepsInv(c: Catalog, step: Step)
    requires Inv(c) && Enabled(c, step)
    ensures Inv(Apply(c, step))
    ensures c.versions <= Apply(c, step).versions
    ensures Apply(c, step).committed
            == c.committed + if step.Swap? && c.versions[c.held[step.w]] == c.versions[|c.versions| - 1]
                             then [(step.snap, |c.versions|)] else []
  {
    if step.Swap? && c.held[step.w] == |c.versions| - 1 {
      PublishKeepsInv(c, step.snap, step.now, Apply(c, step));
    }
  }

  /** For any number of writers and retries: published versions are never altered and form a
      prefix chain of well-formed tables, and every successful commit is in every later
      version, at the place of its version. */
  lemma {:induction false} CommitChain(c: Catalog, steps: seq<Step>)
    requires Inv(c) && ValidRun(c, steps)
    ensures Inv(Final(c, steps)) && c.versions <= Final(c, steps).versions
    decreases steps
  {
    if steps == [] {
    } else {
      StepKeepsInv(c, steps[0]);
      CommitChain(Apply(c, steps[0]), steps[1..]);
    }
  }

  lemma NoCommitLost(uuid: string, location: string, t0: int, steps: seq<Step>, n: nat, v: nat)
    requires ValidRun(Init(uuid, location, t0), steps)
    requires n < |Final(Init(uuid, location, t0), steps).committed|
    requires n < v < |Final(Init(uuid, location, t0), steps).versions|
    ensures var c := Final(Init(uuid, location, t0), steps);
            && WellFormed(c.versions[v]) && |c.committed| == |c.versions| - 1
            && SameSnapshot(c.versions[v].snapshots, n, c.committed[n].0)
            && c.versions[v].snapshots[n].sequenceNumber == n + 1
            && c.versions[v].currentSnapshotId == Some(c.committed[v - 1].0.snapshotId)
  {
    CommitChain(Init(uuid, location, t0), steps);
    var c := Final(Init(uuid, location, t0), steps);
    assert Extends(c.versions[n + 1], c.versions[v]);
    assert SameSnapshot(c.versions[v - 1 + 1].snapshots, v - 1, c.committed[v - 1].0);
  }

  // ------------------------------------------------------------------
  // Parents
  // ------------------------------------------------------------------

  predicate LineageAt(snaps: seq<Snapshot>, i: nat)
    requires i < |snaps|
  {
    snaps[i].parent == if i == 0 then None else Some(snaps[i - 1].snapshotId)
  }

  /** Each snapshot's parent is the one before it, as the specification's lineage requires. */
  predicate Lineage(m: TableMetadata) {
    forall i :: 0 <= i < |m.snapshots| ==> LineageAt(m.snapshots, i)
  }

  /** Commit leaves the parent to its caller: the lineage continues exactly when the caller set
      the parent to the current snapshot of the version committed to. */
  lemma LineageIff(m: TableMetadata, snap: Snapshot, now: int)
    requires WellFormed(m) && Lineage(m)
    ensures Lineage(Commit(m, snap, now)) <==> snap.parent == m.currentSnapshotId
  {
    var n, snaps := |m.snapshots|, Commit(m, snap, now).snapshots;
    assert LineageAt(snaps, n) <==> snap.parent == m.currentSnapshotId;
    forall i | 0 <= i < n
      ensures LineageAt(snaps, i)
    {
      assert LineageAt(m.snapshots, i);
    }
  }
}
