/** Bus and writer together: any number of publishers, other subscribers, and the batch
    writer reading its own subscription, which it closes when it has returned. Conservation
    says where every published record is. */
module Pipeline {
  import opened Common
  import opened Bus
  import P = BusProtocol
  import W = Writer

  /** What is known of one subscription: the log, the sends still to come, its channel and
      its history. */
  datatype Books = Books(log: seq<Record>, pending: map<nat, set<nat>>, u: Sub, t: P.Track)

  /** `id` is the writer's subscription (no filter, no replay: writer.go:62). `closed` holds
      its books from the moment the writer closes it (writer.go:74). */
  datatype State = State(bus: P.State, w: W.WriterState, id: nat, closed: Option<Books>)

  datatype Step =
    | OnBus(step: P.Step)
    | WriterReceives(ok: bool)
    | WriterTicks(ok: bool)
    | WriterStops(ok: bool)
    | WriterCloses

  predicate Open(s: State) { s.closed.None? && s.id in s.bus.subs && s.id in s.bus.tracks }

  predicate Enabled(s: State, step: Step) {
    match step
    case OnBus(b) => P.Enabled(s.bus, b) && b != P.Receive(s.id) && b != P.Close(s.id)
    case WriterReceives(_) => Open(s) && !s.w.done && P.Enabled(s.bus, P.Receive(s.id))
    case WriterTicks(_) => !s.w.done
    case WriterStops(_) => !s.w.done
    case WriterCloses => Open(s) && s.w.done && P.Enabled(s.bus, P.Close(s.id))
  }

  /** The books of the writer's subscription: as they are, or as they were when it closed. */
  function BooksOf(s: State): Books
    requires Open(s) || s.closed.Some?
  {
    if s.closed.Some? then s.closed.value
    else Books(s.bus.log, s.bus.pending, s.bus.subs[s.id], s.bus.tracks[s.id])
  }

  function Apply(s: State, step: Step): State
    requires Enabled(s, step)
  {
    match step
    case OnBus(b) => s.(bus := P.Apply(s.bus, b))
    case WriterReceives(ok) =>
      s.(bus := P.Apply(s.bus, P.Receive(s.id)), w := W.Handle(s.w, W.Received(s.bus.subs[s.id].ch[0], ok)))
    case WriterTicks(ok) => s.(w := W.Handle(s.w, W.Interval(ok)))
    case WriterStops(ok) => s.(w := W.Handle(s.w, W.Shutdown(ok)))
    case WriterCloses => s.(bus := P.Apply(s.bus, P.Close(s.id)), closed := Some(BooksOf(s).(pending := map[])))
  }

  /** The writer registers on a bus that may already be in use. */
  function Join(bus: P.State, batchSize: int): State {
    State(P.Apply(bus, P.Subscribe(None, false)), W.Start(batchSize), bus.nextID, None)
  }

  predicate ValidRun(s: State, steps: seq<Step>)
    decreases steps
  {
    steps == [] || (Enabled(s, steps[0]) && ValidRun(Apply(s, steps[0]), steps[1..]))
  }

  function Final(s: State, steps: seq<Step>): State
    requires ValidRun(s, steps)
    decreases steps
  {
    if steps == [] then s else Final(Apply(s, steps[0]), steps[1..])
  }

  // ------------------------------------------------------------------
  // The invariant
  // ------------------------------------------------------------------

  /** Every log position since registration is attempted once or still in flight. */
  ghost predicate Counted(b: Books, id: nat) {
    forall k: nat :: P.Attempts(b.t, k) + P.InFlight(b.log, b.pending, id, None, k) == P.Owed(b.log, b.t.at, None, k)
  }

  /** The books add up, and the writer has consumed exactly what the subscription delivered. */
  ghost predicate Balanced(b: Books, id: nat, w: W.WriterState) {
    && b.t.at <= |b.log| && b.t.skips == [] && b.u.filter == None && !b.t.replay
    && P.ContentsOk(b.log, b.u, b.t)
    && Counted(b, id)
    && b.t.received == W.Drained(w.batches) + w.buf
  }

  ghost predicate Inv(s: State) {
    && P.Inv(s.bus)
    && W.Accounted(s.w)
    && (s.w.done ==> s.w.buf == [])
    && (if s.closed.None? then s.id in s.bus.subs && s.id in s.bus.tracks
        else s.w.done && s.id !in s.bus.subs && s.id < s.bus.nextID
             && s.closed.value.log <= s.bus.log && s.closed.value.pending == map[])
    && Balanced(BooksOf(s), s.id, s.w)
  }

  /** While the subscription is open the bus's invariant keeps its books. */
  lemma OpenBooksCount(s: State)
    requires P.Inv(s.bus) && Open(s)
    requires s.bus.subs[s.id].filter == None && !s.bus.tracks[s.id].replay
    ensures BooksOf(s).t.at <= |s.bus.log| && P.ContentsOk(s.bus.log, BooksOf(s).u, BooksOf(s).t)
    ensures Counted(BooksOf(s), s.id)
  {
    assert P.SubOk(s.bus, s.id, s.bus.subs[s.id], s.bus.tracks[s.id]);
  }

  lemma JoinGivesInv(bus: P.State, batchSize: int, s: State)
    requires P.Inv(bus) && s == Join(bus, batchSize)
    ensures Inv(s)
  {
    P.SubscribeKeepsInv(bus, None, false, s.bus);
    OpenBooksCount(s);
  }

  /** Publications only add to the writer's channel; other subscribers do not touch it. */
  lemma BusStepSparesWriter(bus: P.State, id: nat, b: P.Step, bus': P.State)
    requires P.NamesOk(bus) && id in bus.subs && id in bus.tracks
    requires P.Enabled(bus, b) && b != P.Receive(id) && b != P.Close(id) && bus' == P.Apply(bus, b)
    ensures id in bus'.subs && id in bus'.tracks
    ensures bus'.subs[id].filter == bus.subs[id].filter
    ensures var t, t' := bus.tracks[id], bus'.tracks[id];
            t'.replay == t.replay && t'.skips == t.skips && t'.received == t.received && t'.at == t.at
  {
    match b
    case Send(k, j) =>
    case _ =>
  }

  lemma BusOnlyGrows(bus: P.State, b: P.Step, bus': P.State, id: nat)
    requires P.Inv(bus) && P.Enabled(bus, b) && bus' == P.Apply(bus, b) && id !in bus.subs && id < bus.nextID
    ensures bus.log <= bus'.log && id !in bus'.subs && id < bus'.nextID
  {
  }

  lemma OnBusKeepsInv(s: State, b: P.Step, s': State)
    requires Inv(s) && Enabled(s, OnBus(b)) && s' == Apply(s, OnBus(b))
    ensures Inv(s')
  {
    P.StepKeepsInv(s.bus, b);
    if s.closed.None? {
      BusStepSparesWriter(s.bus, s.id, b, s'.bus);
      OpenBooksCount(s');
    } else {
      BusOnlyGrows(s.bus, b, s'.bus, s.id);
    }
  }

  lemma ReceiveKeepsInv(s: State, ok: bool, s': State)
    requires Inv(s) && Enabled(s, WriterReceives(ok)) && s' == Apply(s, WriterReceives(ok))
    ensures Inv(s')
  {
    P.ReceiveKeepsInv(s.bus, s.id, s'.bus);
    var e := W.Received(s.bus.subs[s.id].ch[0], ok);
    W.HandleKeepsAccounts(s.w, e);
    W.HandleFlushes(s.w, e);
    OpenBooksCount(s');
  }

  lemma WriterKeepsInv(s: State, e: W.Event, s': State)
    requires Inv(s) && !e.Received? && s' == s.(w := W.Handle(s.w, e)) && !s.w.done
    ensures Inv(s')
  {
    W.HandleKeepsAccounts(s.w, e);
    W.HandleFlushes(s.w, e);
    assert W.Drained(s'.w.batches) + s'.w.buf == W.Drained(s.w.batches) + s.w.buf;
  }

  lemma SettledBooks(b: Books, id: nat)
    requires Counted(b, id) && P.Settled(b.pending, id)
    ensures Counted(b.(pending := map[]), id)
  {
    forall k: nat
      ensures P.Attempts(b.t, k) + P.InFlight(b.log, map[], id, None, k) == P.Owed(b.log, b.t.at, None, k)
    {
      assert P.Attempts(b.t, k) + P.InFlight(b.log, b.pending, id, None, k) == P.Owed(b.log, b.t.at, None, k);
    }
  }

  lemma CloseKeepsInv(s: State, s': State)
    requires Inv(s) && Enabled(s, WriterCloses) && s' == Apply(s, WriterCloses)
    ensures Inv(s')
  {
    P.CloseKeepsInv(s.bus, s.id, s'.bus);
    SettledBooks(BooksOf(s), s.id);
  }

  lemma StepKeepsInv(s: State, step: Step, s': State)
    requires Inv(s) && Enabled(s, step) && s' == Apply(s, step)
    ensures Inv(s') && s'.id == s.id
    ensures BooksOf(s').t.at == BooksOf(s).t.at
  {
    match step
    case OnBus(b) =>
      OnBusKeepsInv(s, b, s');
      if s.closed.None? {
        BusStepSparesWriter(s.bus, s.id, b, s'.bus);
      }
    case WriterReceives(ok) => ReceiveKeepsInv(s, ok, s');
    case WriterTicks(ok) => WriterKeepsInv(s, W.Interval(ok), s');
    case WriterStops(ok) => WriterKeepsInv(s, W.Shutdown(ok), s');
    case WriterCloses => CloseKeepsInv(s, s');
  }

  lemma {:induction false} RunKeepsInv(s: State, steps: seq<Step>)
    requires Inv(s) && ValidRun(s, steps)
    ensures Inv(Final(s, steps)) && Final(s, steps).id == s.id
    ensures BooksOf(Final(s, steps)).t.at == BooksOf(s).t.at
    decreases steps
  {
    if steps == [] {
    } else {
      StepKeepsInv(s, steps[0], Apply(s, steps[0]));
      RunKeepsInv(Apply(s, steps[0]), steps[1..]);
    }
  }

  // ------------------------------------------------------------------
  // Conservation
  // ------------------------------------------------------------------

  predicate IsFlying(log: seq<Record>, pending: map<nat, set<nat>>, id: nat, k: nat) {
    P.InFlight(log, pending, id, None, k) == 1
  }

  ghost predicate Below(at: seq<nat>, n: nat) { forall i :: 0 <= i < |at| ==> at[i] < n }

  /** The publications below n that have yet to reach subscription id. */
  function Flying(log: seq<Record>, pending: map<nat, set<nat>>, id: nat, n: nat): seq<nat> {
    if n == 0 then []
    else if IsFlying(log, pending, id, n - 1) then Flying(log, pending, id, n - 1) + [n - 1]
    else Flying(log, pending, id, n - 1)
  }

  lemma {:induction false} FlyingMembers(log: seq<Record>, pending: map<nat, set<nat>>, id: nat, n: nat)
    ensures forall k :: k in Flying(log, pending, id, n) <==> 0 <= k < n && IsFlying(log, pending, id, k)
    ensures Increasing(Flying(log, pending, id, n)) && Below(Flying(log, pending, id, n), n)
  {
    if n == 0 {
    } else {
      var before := Flying(log, pending, id, n - 1);
      FlyingMembers(log, pending, id, n - 1);
      assert forall k :: k in before + [n - 1] <==> k in before || k == n - 1;
    }
  }

  lemma FlyingCounts(log: seq<Record>, pending: map<nat, set<nat>>, id: nat, n: nat, k: nat)
    ensures multiset(Flying(log, pending, id, n))[k] == if k < n && IsFlying(log, pending, id, k) then 1 else 0
  {
    FlyingMembers(log, pending, id, n);
    P.DistinctOnce(Flying(log, pending, id, n), k);
  }

  function Range(from: nat, until: nat): seq<nat>
    requires from <= until
  {
    seq(until - from, i requires 0 <= i < until - from => from + i)
  }

  lemma StrikeOut(a: seq<nat>, x: nat, b1: seq<nat>, b2: seq<nat>)
    requires multiset(a + [x]) == multiset((b1 + [x]) + b2)
    ensures multiset(a) == multiset(b1 + b2)
  {
    assert multiset(a) == multiset(a + [x]) - multiset{x};
  }

  lemma BelowParts(a: seq<nat>, b: seq<nat>, c: seq<nat>, n: nat)
    requires Below((a + b) + c, n)
    ensures Below(a + b, n) && Below(a + c, n) && Below(a, n)
  {
    forall i | 0 <= i < |a + b|
      ensures (a + b)[i] < n
    {
      assert (a + b)[i] == ((a + b) + c)[i];
    }
    forall i | 0 <= i < |a + c|
      ensures (a + c)[i] < n
    {
      assert (a + c)[i] == if i < |a| then ((a + b) + c)[i] else ((a + b) + c)[i + |b|];
    }
    forall i | 0 <= i < |a|
      ensures a[i] < n
    {
      assert a[i] == ((a + b) + c)[i];
    }
  }

  lemma LookupConcat(log: seq<Record>, a: seq<nat>, b: seq<nat>)
    requires Below(a + b, |log|)
    ensures Below(a, |log|) && Below(b, |log|)
    ensures P.Lookup(log, a + b) == P.Lookup(log, a) + P.Lookup(log, b)
  {
    assert forall i :: 0 <= i < |a| ==> (a + b)[i] == a[i];
    assert forall i :: 0 <= i < |b| ==> (a + b)[|a| + i] == b[i];
  }

  lemma PermuteStep(log: seq<Record>, a: seq<nat>, x: nat, b1: seq<nat>, b2: seq<nat>)
    requires multiset(a + [x]) == multiset((b1 + [x]) + b2)
    requires Below(a + [x], |log|) && Below((b1 + [x]) + b2, |log|)
    ensures multiset(P.Lookup(log, a + [x])) == multiset(P.Lookup(log, (b1 + [x]) + b2))
    decreases |a + [x]|, 0
  {
    StrikeOut(a, x, b1, b2);
    BelowParts(b1, [x], b2, |log|);
    LookupConcat(log, a, [x]);
    LookupConcat(log, b1 + [x], b2);
    LookupConcat(log, b1, [x]);
    LookupConcat(log, b1, b2);
    LookupPermutes(log, a, b1 + b2);
  }

  /** The same positions in another order hold the same records in another order. */
  lemma {:induction false} LookupPermutes(log: seq<Record>, a: seq<nat>, b: seq<nat>)
    requires multiset(a) == multiset(b) && Below(a, |log|) && Below(b, |log|)
    ensures multiset(P.Lookup(log, a)) == multiset(P.Lookup(log, b))
    decreases |a|
  {
    if a == [] {
      assert |multiset(b)| == 0;
    } else {
      var a', x := a[..|a| - 1], a[|a| - 1];
      assert x in multiset(b);
      var j :| 0 <= j < |b| && b[j] == x;
      var b1, b2 := b[..j], b[j + 1..];
      assert a == a' + [x];
      assert b == (b1 + [x]) + b2;
      PermuteStep(log, a', x, b1, b2);
    }
  }

  lemma InRange(from: nat, until: nat, k: nat)
    requires from <= until
    ensures k in Range(from, until) <==> from <= k < until
  {
    if from <= k < until {
      assert Range(from, until)[k - from] == k;
    }
  }

  /** The log positions since registration are those sent, dropped or in flight, each once. */
  lemma PositionsConserved(b: Books, id: nat, w: W.WriterState)
    requires Balanced(b, id, w)
    ensures multiset(Range(b.t.at, |b.log|))
            == multiset(b.t.enq + b.t.drops + Flying(b.log, b.pending, id, |b.log|))
  {
    var flying := Flying(b.log, b.pending, id, |b.log|);
    var all := Range(b.t.at, |b.log|);
    var owed: multiset<nat>, met: multiset<nat> := multiset(all), multiset(b.t.enq + b.t.drops + flying);
    forall k: nat
      ensures owed[k] == met[k]
    {
      P.DistinctOnce(all, k);
      InRange(b.t.at, |b.log|, k);
      FlyingCounts(b.log, b.pending, id, |b.log|, k);
      assert P.Attempts(b.t, k) + P.InFlight(b.log, b.pending, id, None, k) == P.Owed(b.log, b.t.at, None, k);
    }
  }

  lemma AllBelow(b: Books, id: nat, w: W.WriterState)
    requires Balanced(b, id, w)
    ensures Below((b.t.enq + b.t.drops) + Flying(b.log, b.pending, id, |b.log|), |b.log|)
    ensures Below(b.t.drops, |b.log|) && Below(Flying(b.log, b.pending, id, |b.log|), |b.log|)
  {
    FlyingMembers(b.log, b.pending, id, |b.log|);
    forall i | 0 <= i < |b.t.drops|
      ensures b.t.drops[i] < |b.log|
    {
      var k := b.t.drops[i];
      assert k in multiset(b.t.drops);
      assert P.Attempts(b.t, k) + P.InFlight(b.log, b.pending, id, None, k) == P.Owed(b.log, b.t.at, None, k);
    }
  }

  /** Every record published since the writer registered, up to its closing, is stored, in a
      refused batch, in the writer's buffer, queued in the channel, dropped, or still in flight,
      and no other record is. The drop counter and the writer's counters agree. */
  ghost predicate Conserved(b: Books, id: nat, w: W.WriterState) {
    var flying := Flying(b.log, b.pending, id, |b.log|);
    && b.t.at <= |b.log| && Below(b.t.drops, |b.log|) && Below(flying, |b.log|)
    && multiset(b.log[b.t.at..])
       == multiset(W.Stored(w.batches)) + multiset(W.Lost(w.batches)) + multiset(w.buf)
          + multiset(b.u.ch) + multiset(P.Lookup(b.log, b.t.drops)) + multiset(P.Lookup(b.log, flying))
    && |b.t.drops| == b.u.dropped
    && w.written == |W.Stored(w.batches)|
    && w.flushes <= w.written <= w.flushes * w.batchSize
  }

  lemma Conservation(b: Books, id: nat, w: W.WriterState)
    requires Balanced(b, id, w) && W.Accounted(w)
    ensures Conserved(b, id, w)
  {
    var flying := Flying(b.log, b.pending, id, |b.log|);
    PositionsConserved(b, id, w);
    AllBelow(b, id, w);
    var all := Range(b.t.at, |b.log|);
    LookupPermutes(b.log, all, (b.t.enq + b.t.drops) + flying);
    assert P.Lookup(b.log, all) == b.log[b.t.at..];
    LookupConcat(b.log, b.t.enq + b.t.drops, flying);
    LookupConcat(b.log, b.t.enq, b.t.drops);
    assert P.Lookup(b.log, b.t.enq) == (W.Drained(w.batches) + w.buf) + b.u.ch;
    W.DrainedSplits(w.batches);
  }

  lemma {:induction false} NothingFlies(log: seq<Record>, id: nat, n: nat)
    ensures Flying(log, map[], id, n) == []
  {
    if n == 0 {
    } else {
      NothingFlies(log, id, n - 1);
    }
  }

  /** Once the writer has closed its subscription nothing is buffered or in flight: what was
      published up to then is stored, refused, left in the channel, or dropped. */
  lemma NothingLeftOver(s: State)
    requires Inv(s) && s.closed.Some?
    ensures var b := s.closed.value;
            && Below(b.t.drops, |b.log|)
            && multiset(b.log[b.t.at..])
               == multiset(W.Stored(s.w.batches)) + multiset(W.Lost(s.w.batches))
                  + multiset(b.u.ch) + multiset(P.Lookup(b.log, b.t.drops))
  {
    var b := s.closed.value;
    Conservation(b, s.id, s.w);
    NothingFlies(b.log, s.id, |b.log|);
  }

  // ------------------------------------------------------------------
  // Order
  // ------------------------------------------------------------------

  /** The table holds each publisher's records in the order it published them. */
  ghost predicate StoredInPublishOrder(log: seq<Record>, w: W.WriterState, who: P.Publishers) {
    exists at: seq<nat> :: P.InOrder(at, who) && Below(at, |log|) && W.Stored(w.batches) == P.Lookup(log, at)
  }

  lemma OrderlyStores(b: Books, id: nat, w: W.WriterState, who: P.Publishers)
    requires Balanced(b, id, w) && P.InOrder(b.t.enq, who)
    ensures StoredInPublishOrder(b.log, w, who)
  {
    var where, stored := W.StoredAt(w.batches), W.Stored(w.batches);
    W.StoredInOrder(w.batches);
    var read := b.t.received + b.u.ch;
    assert |read| == |b.t.enq|;
    var at := seq(|where|, i requires 0 <= i < |where| => b.t.enq[where[i]]);
    forall i | 0 <= i < |at|
      ensures at[i] < |b.log| && stored[i] == b.log[at[i]]
    {
      assert stored[i] == W.Drained(w.batches)[where[i]] == read[where[i]];
    }
    assert stored == P.Lookup(b.log, at);
  }

  /** No publisher starts a publication before its previous one has made all its sends. */
  predicate Sequential(s: State, who: P.Publishers, steps: seq<Step>)
    requires ValidRun(s, steps)
    decreases steps
  {
    steps == [] ||
    ((steps[0].OnBus? && steps[0].step.Lock? ==> P.PublisherIsFree(s.bus, who))
     && Sequential(Apply(s, steps[0]), who, steps[1..]))
  }

  ghost predicate Orderly(s: State, who: P.Publishers)
    requires Inv(s)
  {
    P.Orderly(s.bus, who) && P.InOrder(BooksOf(s).t.enq, who)
  }

  lemma StepKeepsOrderly(s: State, who: P.Publishers, step: Step, s': State)
    requires Inv(s) && Orderly(s, who) && Enabled(s, step) && s' == Apply(s, step)
    requires step.OnBus? && step.step.Lock? ==> P.PublisherIsFree(s.bus, who)
    ensures Inv(s') && Orderly(s', who)
  {
    StepKeepsInv(s, step, s');
    match step
    case OnBus(b) => P.StepKeepsOrderly(s.bus, who, b, s'.bus);
    case WriterReceives(_) => P.StepKeepsOrderly(s.bus, who, P.Receive(s.id), s'.bus);
    case WriterCloses => P.StepKeepsOrderly(s.bus, who, P.Close(s.id), s'.bus);
    case _ =>
  }

  lemma {:induction false} PublishersKeepOrder(s: State, who: P.Publishers, steps: seq<Step>)
    requires Inv(s) && Orderly(s, who) && ValidRun(s, steps) && Sequential(s, who, steps)
    ensures Inv(Final(s, steps)) && Orderly(Final(s, steps), who)
    decreases steps
  {
    if steps == [] {
    } else {
      StepKeepsOrderly(s, who, steps[0], Apply(s, steps[0]));
      PublishersKeepOrder(Apply(s, steps[0]), who, steps[1..]);
    }
  }

  /** The whole pipeline, from a writer joining any reachable bus through any run, up to the
      closing of its subscription if the run gets that far: records are conserved, and when
      each publisher publishes one record at a time the table holds its records in its order. */
  lemma PipelineTheorem(bus: P.State, batchSize: int, steps: seq<Step>, who: P.Publishers)
    requires P.Inv(bus) && ValidRun(Join(bus, batchSize), steps)
    ensures var s := Final(Join(bus, batchSize), steps);
            && Inv(s) && BooksOf(s).t.at == |bus.log| && BooksOf(s).log <= s.bus.log
            && Conserved(BooksOf(s), s.id, s.w)
            && (P.Orderly(bus, who) && Sequential(Join(bus, batchSize), who, steps) ==>
                  StoredInPublishOrder(BooksOf(s).log, s.w, who))
  {
    var s0, s := Join(bus, batchSize), Final(Join(bus, batchSize), steps);
    JoinGivesInv(bus, batchSize, s0);
    RunKeepsInv(s0, steps);
    Conservation(BooksOf(s), s.id, s.w);
    if P.Orderly(bus, who) && Sequential(s0, who, steps) {
      P.StepKeepsOrderly(bus, who, P.Subscribe(None, false), s0.bus);
      assert P.InOrder(BooksOf(s0).t.enq, who);
      PublishersKeepOrder(s0, who, steps);
      OrderlyStores(BooksOf(s), s.id, s.w, who);
    }
  }
}
