/** The in-process record bus of bus/bus.go and bus/subscription.go: a replay ring and
    bounded subscriber channels. The functions give one atomic step each; the classes
    implement them; BusProtocol.dfy interleaves them. */
module Bus {
  import opened Common

  /** A nil filter accepts everything. */
  type Filter = Option<Record -> bool>

  predicate Accepts(f: Filter, r: Record) { f.None? || f.value(r) }

  /** What a subscription holds: its buffered channel and its drop counter. */
  datatype Sub = Sub(filter: Filter, cap: nat, ch: seq<Record>, dropped: nat)

  /** The non-blocking send of one record to one subscription. */
  function Offer(s: Sub, r: Record): Sub {
    if !Accepts(s.filter, r) then s
    else if |s.ch| < s.cap then s.(ch := s.ch + [r])
    else s.(dropped := s.dropped + 1)
  }

  /** A record the filter rejects changes nothing; an accepted one is queued whenever the
      channel has a free slot, and only otherwise counted as dropped. */
  lemma OfferMeaning(s: Sub, r: Record)
    ensures Offer(s, r).filter == s.filter && Offer(s, r).cap == s.cap
    ensures s.filter.Some? && !s.filter.value(r) ==> Offer(s, r).ch == s.ch && Offer(s, r).dropped == s.dropped
    ensures s.filter.None? || s.filter.value(r) ==>
              if |s.ch| < s.cap then Offer(s, r).ch == s.ch + [r] && Offer(s, r).dropped == s.dropped
              else Offer(s, r).ch == s.ch && Offer(s, r).dropped == s.dropped + 1
  {
  }

  /** The ring after a record is appended. */
  function Push(ring: seq<Record>, size: nat, r: Record): seq<Record> {
    if size == 0 then ring
    else if |ring| >= size then ring[1..] + [r]
    else ring + [r]
  }

  /** The ring always holds the newest ringSize records ever pushed. */
  lemma RingIsNewest(log: seq<Record>, size: nat, r: Record)
    ensures Push(Newest(log, size), size, r) == Newest(log + [r], size)
  {
  }

  /** The matching records of a sequence, in order. */
  function Select(f: Filter, rs: seq<Record>): seq<Record> {
    if rs == [] then []
    else Select(f, rs[..|rs| - 1]) + if Accepts(f, rs[|rs| - 1]) then [rs[|rs| - 1]] else []
  }

  /** What replay leaves in a fresh channel of capacity cap. */
  function Replay(f: Filter, cap: nat, ring: seq<Record>): seq<Record> {
    var matching := Select(f, ring);
    matching[..Min(cap, |matching|)]
  }

  // ------------------------------------------------------------------
  // Classes
  // ------------------------------------------------------------------

  class Subscription {
    const id: nat
    const filter: Filter
    const cap: nat
    var ch: seq<Record>
    var dropped: nat
    var closed: bool

    ghost function View(): Sub
      reads this
    {
      Sub(filter, cap, ch, dropped)
    }

    constructor (id: nat, filter: Filter, cap: nat)
      ensures this.id == id && !closed && View() == Sub(filter, cap, [], 0)
    {
      this.id, this.filter, this.cap := id, filter, cap;
      ch, dropped, closed := [], 0, false;
    }

    /** The select statement inside Publish. */
    method Deliver(r: Record)
      modifies this
      ensures View() == Offer(old(View()), r) && closed == old(closed)
      ensures filter.Some? && !filter.value(r) ==> ch == old(ch) && dropped == old(dropped)
      ensures filter.None? || filter.value(r) ==>
                if |old(ch)| < cap then ch == old(ch) + [r] && dropped == old(dropped)
                else ch == old(ch) && dropped == old(dropped) + 1
    {
      if filter.Some? && !filter.value(r) {
        return;
      }
      if |ch| < cap {
        ch := ch + [r];
      } else {
        dropped := dropped + 1;
      }
    }

    /** The replay loop of Subscribe: matches go into the fresh channel until it is full. */
    method Prefill(ring: seq<Record>)
      requires ch == []
      modifies this`ch
      ensures ch == Replay(filter, cap, ring)
    {
      for i := 0 to |ring|
        invariant ch == Replay(filter, cap, ring[..i])
      {
        assert ring[..i + 1][..i] == ring[..i];
        if Accepts(filter, ring[i]) && |ch| < cap {
          ch := ch + [ring[i]];
        }
      }
      assert ring[..|ring|] == ring;
    }
  }

  class RecordBus {
    var subs: map<nat, Subscription>
    var nextID: nat
    var ring: seq<Record>
    const ringSize: nat
    const subBuffer: nat
    ghost var log: seq<Record>   // everything ever published, oldest first

    ghost predicate Valid()
      reads this, subs.Values
    {
      && subBuffer > 0
      && ring == Newest(log, ringSize)
      && forall id <- subs :: id < nextID && subs[id].id == id && subs[id].cap == subBuffer
                              && |subs[id].ch| <= subBuffer && !subs[id].closed
    }

    constructor (ringSize: int, subBuffer: int)
      ensures Valid() && subs == map[] && log == [] && nextID == 0
      ensures this.ringSize == Max(0, ringSize)
      ensures this.subBuffer == if subBuffer <= 0 then 64 else subBuffer
    {
      this.ringSize := if ringSize < 0 then 0 else ringSize;
      this.subBuffer := if subBuffer <= 0 then 64 else subBuffer;
      subs, nextID, ring, log := map[], 0, [], [];
    }

    /** The current subscriptions, each once, in any order. */
    ghost predicate IsSnapshot(snapshot: seq<Subscription>)
      reads this, snapshot
    {
      && (forall s <- snapshot :: s.id in subs && subs[s.id] == s)
      && (forall id <- subs :: subs[id] in snapshot)
      && (forall i, j :: 0 <= i < j < |snapshot| ==> snapshot[i] != snapshot[j])
    }

    method Snapshot() returns (snapshot: seq<Subscription>)
      requires Valid()
      ensures IsSnapshot(snapshot)
    {
      snapshot := [];
      var todo := subs.Keys;
      while todo != {}
        invariant todo <= subs.Keys
        invariant forall s <- snapshot :: s.id in subs && s.id !in todo && subs[s.id] == s
        invariant forall id <- subs :: id in todo || subs[id] in snapshot
        invariant forall i, j :: 0 <= i < j < |snapshot| ==> snapshot[i] != snapshot[j]
        decreases |todo|
      {
        var id :| id in todo;
        todo := todo - {id};
        snapshot := snapshot + [subs[id]];
      }
    }

    /** The locked part of Publish: append to the ring, copy the subscriber set. */
    method AppendAndSnapshot(r: Record) returns (snapshot: seq<Subscription>)
      requires Valid()
      modifies this`ring, this`log
      ensures Valid() && log == old(log) + [r]
      ensures IsSnapshot(snapshot)
    {
      if ringSize > 0 {
        if |ring| >= ringSize {
          ring := ring[1..];
        }
        ring := ring + [r];
      }
      assert ring == Push(old(ring), ringSize, r);
      RingIsNewest(log, ringSize, r);
      log := log + [r];
      snapshot := Snapshot();
    }

    /** The unlocked part: one send per copied subscription. */
    static method SendAll(snapshot: seq<Subscription>, r: Record)
      requires forall i, j :: 0 <= i < j < |snapshot| ==> snapshot[i] != snapshot[j]
      modifies snapshot
      ensures forall s <- snapshot :: s.View() == Offer(old(s.View()), r) && s.closed == old(s.closed)
    {
      for n := 0 to |snapshot|
        invariant forall i :: 0 <= i < n ==> snapshot[i].View() == Offer(old(snapshot[i].View()), r)
        invariant forall i :: n <= i < |snapshot| ==> snapshot[i].View() == old(snapshot[i].View())
        invariant forall i :: 0 <= i < |snapshot| ==> snapshot[i].closed == old(snapshot[i].closed)
      {
        snapshot[n].Deliver(r);
      }
    }

    /** With nobody else running, a publication offers the record once to every subscription. */
    method Publish(r: Record)
      requires Valid()
      modifies this`ring, this`log, subs.Values
      ensures Valid() && log == old(log) + [r]
      ensures forall id <- subs :: subs[id].View() == Offer(old(subs[id].View()), r)
    {
      var snapshot := AppendAndSnapshot(r);
      assert forall s <- snapshot :: s in subs.Values;
      SendAll(snapshot, r);
    }

    method Subscribe(filter: Filter, replayRing: bool) returns (sub: Subscription)
      requires Valid()
      modifies this`subs, this`nextID
      ensures Valid() && fresh(sub) && sub.id == old(nextID) && nextID == old(nextID) + 1
      ensures subs == old(subs)[sub.id := sub]
      ensures sub.cap == subBuffer && sub.filter == filter && sub.dropped == 0
      ensures sub.ch == if replayRing then Replay(filter, subBuffer, Newest(log, ringSize)) else []
    {
      var id := nextID;
      nextID := nextID + 1;
      sub := new Subscription(id, filter, subBuffer);
      subs := subs[id := sub];
      if replayRing {
        sub.Prefill(ring);
      }
    }

    /** The newest records, newest last: as many as the ring retains. */
    method Recent() returns (out: seq<Record>)
      requires Valid()
      ensures |out| == Min(ringSize, |log|)
      ensures forall i :: 0 <= i < |out| ==> out[i] == log[|log| - |out| + i]
    {
      out := ring;
    }

    /** Subscription.Close: idempotent, and afterwards no publication sees the subscription. */
    method Close(sub: Subscription)
      requires Valid() && (sub.id in subs ==> subs[sub.id] == sub)
      modifies this`subs, sub`closed
      ensures Valid() && subs == old(subs) - {sub.id}
      ensures sub.closed == (old(sub.closed) || sub.id in old(subs))
    {
      if sub.id !in subs {
        assert subs - {sub.id} == subs;
        return;
      }
      subs := subs - {sub.id};
      sub.closed := true;
    }
  }

  // ------------------------------------------------------------------
  // What the functions mean
  // ------------------------------------------------------------------

  /** The positions of the matching records, counting from `start`. */
  function Positions(f: Filter, rs: seq<Record>, start: nat): seq<nat> {
    if rs == [] then []
    else Positions(f, rs[..|rs| - 1], start) + if Accepts(f, rs[|rs| - 1]) then [start + |rs| - 1] else []
  }

  ghost predicate Increasing(s: seq<nat>) {
    forall i, j :: 0 <= i < j < |s| ==> s[i] < s[j]
  }

  lemma {:induction false} PositionsIncrease(f: Filter, rs: seq<Record>, start: nat)
    ensures forall i :: 0 <= i < |Positions(f, rs, start)| ==> start <= Positions(f, rs, start)[i] < start + |rs|
    ensures Increasing(Positions(f, rs, start))
  {
    if rs == [] {
    } else {
      PositionsIncrease(f, rs[..|rs| - 1], start);
    }
  }

  lemma {:induction false} SelectReads(f: Filter, rs: seq<Record>, start: nat, i: nat)
    ensures |Positions(f, rs, start)| == |Select(f, rs)|
    ensures i < |Select(f, rs)| ==>
              var k := Positions(f, rs, start)[i];
              start <= k < start + |rs| && Select(f, rs)[i] == rs[k - start]
  {
    if rs == [] {
    } else {
      SelectReads(f, rs[..|rs| - 1], start, i);
    }
  }

  /** Select keeps matching records only, in order ... */
  lemma {:induction false} SelectInOrder(f: Filter, rs: seq<Record>, start: nat)
    ensures |Positions(f, rs, start)| == |Select(f, rs)|
    ensures forall i :: 0 <= i < |Positions(f, rs, start)| ==>
              && start <= Positions(f, rs, start)[i] < start + |rs|
              && Select(f, rs)[i] == rs[Positions(f, rs, start)[i] - start]
    ensures Increasing(Positions(f, rs, start))
  {
    PositionsIncrease(f, rs, start);
    SelectReads(f, rs, start, 0);
    forall i | 0 <= i < |Select(f, rs)|
      ensures Select(f, rs)[i] == rs[Positions(f, rs, start)[i] - start]
    {
      SelectReads(f, rs, start, i);
    }
  }

  /** ... and every one of them. */
  lemma {:induction false} SelectIsComplete(f: Filter, rs: seq<Record>, start: nat, k: nat)
    ensures k in Positions(f, rs, start)
            <==> start <= k < start + |rs| && (f.None? || f.value(rs[k - start]))
  {
    if rs == [] {
    } else {
      var n := |rs| - 1;
      SelectIsComplete(f, rs[..n], start, k);
      assert k in Positions(f, rs, start) <==>
          k in Positions(f, rs[..n], start) || (Accepts(f, rs[n]) && k == start + n);
    }
  }
}
