/** The batch writer of storage/writer.go. One goroutine drains a subscription into a
    buffer and flushes it to the store when it is full, on a tick, and at the end. The
    store writes a batch entirely or not at all (storage/storage.go:148-204). */
module Writer {
  import opened Common

  const DEFAULT_BATCH: nat := 256

  /** What the select statement picked. `ok` is the outcome of the store write, should the
      event cause one. */
  datatype Event =
    | Interval(ok: bool)
    | Received(r: Record, ok: bool)
    | ChannelClosed(ok: bool)
    | Shutdown(ok: bool)

  /** One non-empty batch handed to the store, and whether it was stored. */
  datatype Batch = Batch(records: seq<Record>, stored: bool)

  datatype WriterState = WriterState(
    batchSize: nat, buf: seq<Record>, written: nat, flushes: nat, failures: nat, done: bool,
    batches: seq<Batch>)

  function Flushed(s: WriterState, ok: bool): WriterState {
    if s.buf == [] then s
    else if ok then
      s.(written := s.written + |s.buf|, flushes := s.flushes + 1, buf := [],
         batches := s.batches + [Batch(s.buf, true)])
    else
      s.(failures := s.failures + 1, buf := [], batches := s.batches + [Batch(s.buf, false)])
  }

  function Handle(s: WriterState, e: Event): WriterState {
    match e
    case Interval(ok) => Flushed(s, ok)
    case Received(r, ok) =>
      var s' := s.(buf := s.buf + [r]);
      if |s'.buf| >= s.batchSize then Flushed(s', ok) else s'
    case ChannelClosed(ok) => Flushed(s, ok).(done := true)
    case Shutdown(ok) => Flushed(s, ok).(done := true)
  }

  function RunAll(s: WriterState, events: seq<Event>): WriterState
    decreases events
  {
    if events == [] || s.done then s else RunAll(Handle(s, events[0]), events[1..])
  }

  function Start(batchSize: int): WriterState {
    WriterState(if batchSize <= 0 then DEFAULT_BATCH else batchSize, [], 0, 0, 0, false, [])
  }

  // ------------------------------------------------------------------
  // Classes
  // ------------------------------------------------------------------

  class Storage {
    var rows: seq<Record>

    constructor ()
      ensures rows == []
    {
      rows := [];
    }

    /** A transaction: all records or none. */
    method Write(records: seq<Record>, commits: bool) returns (failed: bool)
      modifies this
      ensures failed == !commits
      ensures rows == if commits then old(rows) + records else old(rows)
    {
      if commits {
        rows := rows + records;
      }
      failed := !commits;
    }
  }

  /** The records of the batches that were stored. */
  function Stored(bs: seq<Batch>): seq<Record> {
    if bs == [] then []
    else Stored(bs[..|bs| - 1]) + if bs[|bs| - 1].stored then bs[|bs| - 1].records else []
  }

  lemma StoredAppend(bs: seq<Batch>, b: Batch)
    ensures Stored(bs + [b]) == Stored(bs) + if b.stored then b.records else []
  {
    assert (bs + [b])[..|bs|] == bs;
  }

  class BatchWriter {
    const store: Storage
    const batchSize: nat
    var buf: seq<Record>
    var written: nat
    var flushes: nat
    var failures: nat
    var done: bool
    ghost var batches: seq<Batch>

    ghost function View(): WriterState
      reads this
    {
      WriterState(batchSize, buf, written, flushes, failures, done, batches)
    }

    /** The table holds exactly the records of the stored batches, in order. */
    ghost predicate Valid()
      reads this, store
    {
      store.rows == Stored(batches)
    }

    constructor (store: Storage, batchSize: int)
      requires store.rows == []
      ensures Valid() && this.store == store && View() == Start(batchSize)
      ensures this.batchSize == if batchSize <= 0 then 256 else batchSize
    {
      this.store := store;
      this.batchSize := if batchSize <= 0 then DEFAULT_BATCH else batchSize;
      buf, written, flushes, failures, done, batches := [], 0, 0, 0, false, [];
    }

    method Flush(ok: bool)
      requires Valid()
      modifies this, store
      ensures Valid() && View() == Flushed(old(View()), ok)
    {
      if |buf| == 0 {
        return;
      }
      ghost var before, rows := View(), store.rows;
      var failed := store.Write(buf, ok);
      if failed {
        failures := failures + 1;
      } else {
        written := written + |buf|;
        flushes := flushes + 1;
      }
      StoredAppend(before.batches, Batch(before.buf, ok));
      batches := batches + [Batch(buf, !failed)];
      buf := [];
      assert View() == Flushed(before, ok);
      assert store.rows == rows + if ok then before.buf else [];
    }

    /** One turn of the select statement. */
    method Process(e: Event)
      requires Valid()
      modifies this, store
      ensures Valid() && View() == Handle(old(View()), e)
    {
      match e {
        case Interval(ok) =>
          Flush(ok);
        case Received(r, ok) =>
          buf := buf + [r];
          if |buf| >= batchSize {
            Flush(ok);
          }
        case ChannelClosed(ok) =>
          Flush(ok);
          done := true;
        case Shutdown(ok) =>
          Flush(ok);
          done := true;
      }
    }

    /** The event loop, up to the end of the script or of the writer. */
    method Run(events: seq<Event>)
      requires Valid() && !done
      modifies this, store
      ensures Valid() && View() == RunAll(old(View()), events)
    {
      var i := 0;
      while i < |events| && !done
        invariant 0 <= i <= |events| && Valid()
        invariant RunAll(View(), events[i..]) == RunAll(old(View()), events)
      {
        Process(events[i]);
        assert events[i..][1..] == events[i + 1..];
        i := i + 1;
      }
      assert done || events[i..] == [];
    }
  }

  // ------------------------------------------------------------------
  // Accounting
  // ------------------------------------------------------------------

  /** The records of the batches the store refused. */
  function Lost(bs: seq<Batch>): seq<Record> {
    if bs == [] then []
    else Lost(bs[..|bs| - 1]) + if bs[|bs| - 1].stored then [] else bs[|bs| - 1].records
  }

  /** All records ever flushed, in order. */
  function Drained(bs: seq<Batch>): seq<Record> {
    if bs == [] then [] else Drained(bs[..|bs| - 1]) + bs[|bs| - 1].records
  }

  function CountBatches(bs: seq<Batch>, stored: bool): nat {
    if bs == [] then 0
    else CountBatches(bs[..|bs| - 1], stored) + if bs[|bs| - 1].stored == stored then 1 else 0
  }

  /** Where, among the drained records, the stored ones are. */
  function StoredAt(bs: seq<Batch>): seq<nat> {
    if bs == [] then []
    else
      var before, last := bs[..|bs| - 1], bs[|bs| - 1];
      StoredAt(before) +
      if last.stored then seq(|last.records|, i requires 0 <= i < |last.records| => |Drained(before)| + i) else []
  }

  ghost predicate Accounted(s: WriterState) {
    && s.batchSize > 0
    && |s.buf| < s.batchSize
    && (forall b <- s.batches :: 0 < |b.records| <= s.batchSize)
    && s.written == |Stored(s.batches)|
    && s.flushes == CountBatches(s.batches, true)
    && s.failures == CountBatches(s.batches, false)
    && s.flushes <= s.written <= s.flushes * s.batchSize
  }

  lemma FlushKeepsAccounts(s: WriterState, ok: bool)
    requires Accounted(s.(buf := [])) && |s.buf| <= s.batchSize
    ensures Accounted(Flushed(s, ok))
    ensures Drained(Flushed(s, ok).batches) + Flushed(s, ok).buf == Drained(s.batches) + s.buf
  {
    if s.buf != [] {
      var b := Batch(s.buf, ok);
      assert (s.batches + [b])[..|s.batches|] == s.batches;
      assert (s.flushes + 1) * s.batchSize == s.flushes * s.batchSize + s.batchSize;
    }
  }

  /** At most one batch goes to the store, marked with the store's outcome; every event but a
      record leaves the buffer empty; only a closed channel or a shutdown ends the writer. */
  lemma HandleFlushes(s: WriterState, e: Event)
    ensures !e.Received? ==> Handle(s, e).buf == []
    ensures var more := Handle(s, e).batches;
            more == s.batches || (|more| == |s.batches| + 1 && s.batches <= more && more[|s.batches|].stored == e.ok)
    ensures Handle(s, e).done <==> s.done || e.ChannelClosed? || e.Shutdown?
  {
  }

  lemma Regroup(a: seq<Record>, b: seq<Record>, c: seq<Record>)
    ensures (a + b) + c == a + (b + c)
  {
  }

  /** Every event keeps the counters right, and loses or reorders nothing it received. */
  lemma HandleKeepsAccounts(s: WriterState, e: Event)
    requires Accounted(s)
    ensures Accounted(Handle(s, e)) && Handle(s, e).batchSize == s.batchSize
    ensures Drained(Handle(s, e).batches) + Handle(s, e).buf
            == Drained(s.batches) + s.buf + if e.Received? then [e.r] else []
  {
    match e
    case Received(r, ok) =>
      FlushKeepsAccounts(s.(buf := s.buf + [r]), ok);
      Regroup(Drained(s.batches), s.buf, [r]);
    case _ => FlushKeepsAccounts(s, e.ok);
  }

  /** Records taken from the channel by a run. */
  function Taken(s: WriterState, events: seq<Event>): seq<Record>
    decreases events
  {
    if events == [] || s.done then []
    else (if events[0].Received? then [events[0].r] else []) + Taken(Handle(s, events[0]), events[1..])
  }

  /** A whole run of the event loop keeps its books: what it took is what it drained plus
      its buffer, in order, and the counters count stored records and batches. */
  lemma {:induction false} RunKeepsAccounts(s: WriterState, events: seq<Event>)
    requires Accounted(s)
    ensures Accounted(RunAll(s, events)) && RunAll(s, events).batchSize == s.batchSize
    ensures Drained(RunAll(s, events).batches) + RunAll(s, events).buf == Drained(s.batches) + s.buf + Taken(s, events)
    ensures RunAll(s, events).done && !s.done ==> RunAll(s, events).buf == []
    decreases events
  {
    if events != [] && !s.done {
      var s', first := Handle(s, events[0]), if events[0].Received? then [events[0].r] else [];
      HandleKeepsAccounts(s, events[0]);
      RunKeepsAccounts(s', events[1..]);
      Regroup(Drained(s.batches) + s.buf, first, Taken(s', events[1..]));
    }
  }

  /** A received record causes a write if and only if it fills the batch, and then the whole
      batch goes, that record last. */
  lemma FullBatchOnly(s: WriterState, r: Record, ok: bool)
    requires Accounted(s)
    ensures |s.buf| + 1 < s.batchSize ==>
              Handle(s, Received(r, ok)).batches == s.batches && Handle(s, Received(r, ok)).buf == s.buf + [r]
    ensures |s.buf| + 1 == s.batchSize ==>
              Handle(s, Received(r, ok)).batches == s.batches + [Batch(s.buf + [r], ok)]
              && Handle(s, Received(r, ok)).buf == []
  {
  }

  /** The n-th batch was written when the writer handled event i, which brought no record. */
  ghost predicate ForcedAt(s: WriterState, events: seq<Event>, n: nat, i: nat) {
    && i < |events| && !events[i].Received?
    && |RunAll(s, events[..i]).batches| == n && |RunAll(s, events[..i + 1]).batches| == n + 1
  }

  ghost predicate ForcedBy(s: WriterState, events: seq<Event>, n: nat) { exists i: nat :: ForcedAt(s, events, n, i) }

  lemma RunAllPrefix(s: WriterState, events: seq<Event>, m: nat)
    requires 0 < m <= |events| && !s.done
    ensures RunAll(s, events[..m]) == RunAll(Handle(s, events[0]), events[1..][..m - 1])
  {
    assert events[..m][1..] == events[1..][..m - 1];
  }

  lemma ForcedLater(s: WriterState, events: seq<Event>, n: nat)
    requires events != [] && !s.done
    ensures ForcedBy(Handle(s, events[0]), events[1..], n) ==> ForcedBy(s, events, n)
  {
    if i: nat :| ForcedAt(Handle(s, events[0]), events[1..], n, i) {
      RunAllPrefix(s, events, i + 1);
      RunAllPrefix(s, events, i + 2);
      assert events[1..][i] == events[i + 1];
      assert ForcedAt(s, events, n, i + 1);
    }
  }

  lemma {:induction false} BatchesGrow(s: WriterState, events: seq<Event>)
    ensures s.batches <= RunAll(s, events).batches && RunAll(s, events).batchSize == s.batchSize
    decreases events
  {
    if events == [] || s.done {
    } else {
      HandleFlushes(s, events[0]);
      BatchesGrow(Handle(s, events[0]), events[1..]);
    }
  }

  /** Every batch of a run that is shorter than the batch size was written by a tick, a closing
      or a shutdown. */
  lemma {:induction false} ShortBatchesAreForced(s: WriterState, events: seq<Event>, n: nat)
    requires Accounted(s) && |s.batches| <= n < |RunAll(s, events).batches|
    ensures s.batches <= RunAll(s, events).batches
    ensures |RunAll(s, events).batches[n].records| == s.batchSize || ForcedBy(s, events, n)
    decreases events
  {
    if events == [] || s.done {
    } else {
      var s' := Handle(s, events[0]);
      HandleKeepsAccounts(s, events[0]);
      HandleFlushes(s, events[0]);
      if events[0].Received? {
        FullBatchOnly(s, events[0].r, events[0].ok);
      }
      BatchesGrow(s', events[1..]);
      if |s'.batches| <= n {
        ShortBatchesAreForced(s', events[1..], n);
        ForcedLater(s, events, n);
      } else {
        assert events[..0] == [] && events[..1] == [events[0]];
        assert RunAll(s', [events[0]][1..]) == s';
        assert ForcedAt(s, events, n, 0) || events[0].Received?;
      }
    }
  }

  /** Records alone make full batches only, and leave less than a batch in the buffer. */
  lemma OnlyFullBatches(s: WriterState, events: seq<Event>)
    requires Accounted(s) && forall i :: 0 <= i < |events| ==> events[i].Received?
    ensures |RunAll(s, events).buf| < s.batchSize
    ensures forall n :: |s.batches| <= n < |RunAll(s, events).batches| ==>
              |RunAll(s, events).batches[n].records| == s.batchSize
  {
    RunKeepsAccounts(s, events);
    forall n | |s.batches| <= n < |RunAll(s, events).batches|
      ensures |RunAll(s, events).batches[n].records| == s.batchSize
    {
      ShortBatchesAreForced(s, events, n);
    }
  }

  /** Stored and refused records together are the drained ones. */
  lemma {:induction false} DrainedSplits(bs: seq<Batch>)
    ensures multiset(Drained(bs)) == multiset(Stored(bs)) + multiset(Lost(bs))
  {
    if bs == [] {
    } else {
      DrainedSplits(bs[..|bs| - 1]);
    }
  }

  /** `part` sits in `whole` at increasing positions `at`. */
  ghost predicate SitsAt(part: seq<Record>, whole: seq<Record>, at: seq<nat>) {
    && |at| == |part|
    && (forall i :: 0 <= i < |at| ==> at[i] < |whole| && part[i] == whole[at[i]])
    && (forall i, j :: 0 <= i < j < |at| ==> at[i] < at[j])
  }

  lemma SitsAtMore(part: seq<Record>, whole: seq<Record>, at: seq<nat>, more: seq<Record>, newAt: seq<nat>)
    requires SitsAt(part, whole, at)
    requires |newAt| == |more| && forall i :: 0 <= i < |more| ==> newAt[i] == |whole| + i
    ensures SitsAt(part, whole + more, at)
    ensures SitsAt(part + more, whole + more, at + newAt)
  {
  }

  /** The stored records are a subsequence of the drained ones. */
  lemma {:induction false} StoredInOrder(bs: seq<Batch>)
    ensures SitsAt(Stored(bs), Drained(bs), StoredAt(bs))
  {
    if bs == [] {
    } else {
      var before, last := bs[..|bs| - 1], bs[|bs| - 1];
      StoredInOrder(before);
      var newAt := seq(|last.records|, i requires 0 <= i < |last.records| => |Drained(before)| + i);
      SitsAtMore(Stored(before), Drained(before), StoredAt(before), last.records, newAt);
      assert Stored(before) + [] == Stored(before) && StoredAt(before) + [] == StoredAt(before);
    }
  }
}
