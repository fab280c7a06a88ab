/** Every interleaving of publications, subscriptions, receives and closes on the bus.
    A publication is one locked step followed by one separate send per snapshotted
    subscription (bus/bus.go:46-72); a subscription is one locked step.

    Next to the real state the model keeps a history: `log`, all records in the order of
    their locked steps, and per subscription which log positions were sent, dropped or
    skipped by replay. */
module BusProtocol {
  import opened Common
  import opened Bus

  /** History of one subscription. It was registered when the log had `at` records. */
  datatype Track = Track(
    at: nat, replay: bool,
    replayed: seq<nat>,   // log positions of the ring records that matched at registration
    enq: seq<nat>,        // log positions put into the channel, in order
    drops: seq<nat>,      // log positions dropped because the channel was full
    skips: seq<nat>,      // log positions replay left out
    received: seq<Record>)

  datatype State = State(
    ringSize: nat, subBuffer: nat,
    ring: seq<Record>, nextID: nat, subs: map<nat, Sub>,
    pending: map<nat, set<nat>>,   // publication -> subscriptions it has yet to send to
    log: seq<Record>, tracks: map<nat, Track>)

  datatype Step =
    | Lock(r: Record)
    | Send(k: nat, id: nat)
    | Subscribe(filter: Filter, replay: bool)
    | Receive(id: nat)
    | Close(id: nat)

  function Init(ringSize: nat, subBuffer: nat): State {
    State(ringSize, subBuffer, [], 0, map[], map[], [], map[])
  }

  /** No publication still owes this subscription a send. */
  predicate Settled(pending: map<nat, set<nat>>, id: nat) {
    forall k <- pending :: id !in pending[k]
  }

  /** Close must not overlap a publication that has snapshotted the subscription. */
  predicate Enabled(s: State, step: Step) {
    match step
    case Lock(_) => true
    case Send(k, id) => k in s.pending && id in s.pending[k] && k < |s.log| && id in s.subs && id in s.tracks
    case Subscribe(_, _) => true
    case Receive(id) => id in s.subs && id in s.tracks && s.subs[id].ch != []
    case Close(id) => Settled(s.pending, id)
  }

  function NewSub(ring: seq<Record>, cap: nat, f: Filter, replay: bool): Sub {
    Sub(f, cap, if replay then Replay(f, cap, ring) else [], 0)
  }

  function NewTrack(log: seq<Record>, ring: seq<Record>, cap: nat, f: Filter, replay: bool): Track {
    var hits := if replay && |ring| <= |log| then Positions(f, ring, |log| - |ring|) else [];
    var kept := Min(cap, |hits|);
    Track(|log|, replay, hits, hits[..kept], [], hits[kept..], [])
  }

  function Sent(t: Track, u: Sub, k: nat, r: Record): Track {
    if !Accepts(u.filter, r) then t
    else if |u.ch| < u.cap then t.(enq := t.enq + [k])
    else t.(drops := t.drops + [k])
  }

  function Put(s: State, id: nat, u: Sub, t: Track): State {
    s.(subs := s.subs[id := u], tracks := s.tracks[id := t])
  }

  function Apply(s: State, step: Step): State
    requires Enabled(s, step)
  {
    match step
    case Lock(r) =>
      s.(ring := Push(s.ring, s.ringSize, r), log := s.log + [r], pending := s.pending[|s.log| := s.subs.Keys])
    case Send(k, id) =>
      Put(s, id, Offer(s.subs[id], s.log[k]), Sent(s.tracks[id], s.subs[id], k, s.log[k]))
      .(pending := s.pending[k := s.pending[k] - {id}])
    case Subscribe(f, replay) =>
      var u, t := NewSub(s.ring, s.subBuffer, f, replay), NewTrack(s.log, s.ring, s.subBuffer, f, replay);
      Put(s, s.nextID, u, t).(nextID := s.nextID + 1)
    case Receive(id) =>
      var u, t := s.subs[id], s.tracks[id];
      Put(s, id, u.(ch := u.ch[1..]), t.(received := t.received + [u.ch[0]]))
    case Close(id) =>
      s.(subs := s.subs - {id}, tracks := s.tracks - {id})
  }

  predicate ValidRun(s: State, steps: seq<Step>)
    decreases steps
  {
    steps == [] || (Enabled(s, steps[0]) && ValidRun(Apply(s, steps[0]), steps[1..]))
  }

  function Final(s: State, steps: seq<Step>): State
    requires ValidRun(s, steps)
    decreases steps
  {
    if steps == [] then s else Final(Apply(s, steps[0]), steps[1..])
  }

  // ------------------------------------------------------------------
  // The invariant
  // ------------------------------------------------------------------

  function Lookup(log: seq<Record>, at: seq<nat>): seq<Record>
    requires forall i :: 0 <= i < |at| ==> at[i] < |log|
  {
    seq(|at|, i requires 0 <= i < |at| => log[at[i]])
  }

  /** The first log position owed to a subscription: where its ring started, or where it registered. */
  function Start(ringSize: nat, t: Track): nat {
    if t.replay then t.at - Min(ringSize, t.at) else t.at
  }

  /** How often position k has been attempted: sent, dropped, or skipped by replay. */
  function Attempts(t: Track, k: nat): nat {
    multiset(t.enq)[k] + multiset(t.drops)[k] + multiset(t.skips)[k]
  }

  predicate Matches(log: seq<Record>, f: Filter, k: nat) {
    k < |log| && (f.None? || f.value(log[k]))
  }

  function Owed(log: seq<Record>, start: nat, f: Filter, k: nat): nat {
    if start <= k && Matches(log, f, k) then 1 else 0
  }

  function InFlight(log: seq<Record>, pending: map<nat, set<nat>>, id: nat, f: Filter, k: nat): nat {
    if k in pending && id in pending[k] && Matches(log, f, k) then 1 else 0
  }

  /** Every owed record is attempted once or still in flight; nothing else is attempted. */
  ghost predicate Counted(s: State, id: nat, u: Sub, t: Track) {
    forall k: nat :: Attempts(t, k) + InFlight(s.log, s.pending, id, u.filter, k)
                     == Owed(s.log, Start(s.ringSize, t), u.filter, k)
  }

  /** The channel began with the replayed records and then carried live ones. */
  ghost predicate ReplayOk(ringSize: nat, log: seq<Record>, u: Sub, t: Track) {
    var kept := Min(u.cap, |t.replayed|);
    && t.at <= |log|
    && Increasing(t.replayed)
    && (forall k: nat :: k in t.replayed <==> Start(ringSize, t) <= k < t.at && Matches(log, u.filter, k))
    && kept <= |t.enq|
    && (forall i :: 0 <= i < kept ==> t.enq[i] == t.replayed[i])
    && (forall i :: kept <= i < |t.enq| ==> t.at <= t.enq[i])
  }

  ghost predicate ContentsOk(log: seq<Record>, u: Sub, t: Track) {
    && |u.ch| <= u.cap
    && |t.drops| == u.dropped
    && (forall i :: 0 <= i < |t.enq| ==> t.enq[i] < |log|)
    && t.received + u.ch == Lookup(log, t.enq)
  }

  ghost predicate SubOk(s: State, id: nat, u: Sub, t: Track) {
    && u.cap == s.subBuffer
    && ContentsOk(s.log, u, t)
    && ReplayOk(s.ringSize, s.log, u, t)
    && Counted(s, id, u, t)
  }

  predicate NamesOk(s: State) { forall id <- s.subs :: id < s.nextID }

  ghost predicate SubsOk(s: State) {
    s.subs.Keys == s.tracks.Keys && forall id <- s.subs :: SubOk(s, id, s.subs[id], s.tracks[id])
  }

  ghost predicate PendingOk(s: State) {
    && (forall k <- s.pending :: k < |s.log|)
    && (forall k, id :: k in s.pending && id in s.pending[k] ==>
          id in s.subs && id in s.tracks && id < s.nextID && s.tracks[id].at <= k)
  }

  ghost predicate Inv(s: State) {
    && s.subBuffer > 0
    && s.ring == Newest(s.log, s.ringSize)
    && NamesOk(s)
    && PendingOk(s)
    && SubsOk(s)
  }

  // ------------------------------------------------------------------
  // The steps keep it
  // ------------------------------------------------------------------

  lemma LockKeepsSub(s: State, r: Record, id: nat, u: Sub, t: Track)
    requires SubOk(s, id, u, t) && id in s.subs && s.subs[id] == u
    requires forall k <- s.pending :: k < |s.log|
    ensures SubOk(Apply(s, Lock(r)), id, u, t)
  {
    var s' := Apply(s, Lock(r));
    var f := u.filter;
    forall k: nat
      ensures Attempts(t, k) + InFlight(s'.log, s'.pending, id, f, k) == Owed(s'.log, Start(s.ringSize, t), f, k)
    {
      assert Attempts(t, k) + InFlight(s.log, s.pending, id, f, k) == Owed(s.log, Start(s.ringSize, t), f, k);
    }
    assert Lookup(s'.log, t.enq) == Lookup(s.log, t.enq);
    forall k: nat
      ensures k in t.replayed <==> Start(s.ringSize, t) <= k < t.at && Matches(s'.log, f, k)
    {
      assert k < |s.log| ==> Matches(s'.log, f, k) == Matches(s.log, f, k);
    }
  }

  lemma LockKeepsPending(s: State, r: Record, s': State)
    requires PendingOk(s) && NamesOk(s) && s.subs.Keys == s.tracks.Keys && s' == Apply(s, Lock(r))
    requires forall id <- s.subs :: s.tracks[id].at <= |s.log|
    ensures PendingOk(s') && NamesOk(s')
  {
    forall k, id | k in s'.pending && id in s'.pending[k]
      ensures id in s'.subs && id in s'.tracks && id < s'.nextID && s'.tracks[id].at <= k
    {
      if k < |s.log| {
        assert id in s.pending[k];
      } else {
        assert k == |s.log| && id in s.subs;
      }
    }
  }

  lemma LockKeepsSubs(s: State, r: Record, s': State)
    requires SubsOk(s) && s' == Apply(s, Lock(r)) && forall k <- s.pending :: k < |s.log|
    ensures SubsOk(s')
  {
    forall id <- s'.subs
      ensures SubOk(s', id, s'.subs[id], s'.tracks[id])
    {
      LockKeepsSub(s, r, id, s.subs[id], s.tracks[id]);
    }
  }

  lemma LockKeepsInv(s: State, r: Record, s': State)
    requires Inv(s) && s' == Apply(s, Lock(r))
    ensures Inv(s')
  {
    RingIsNewest(s.log, s.ringSize, r);
    forall id <- s.subs
      ensures s.tracks[id].at <= |s.log|
    {
      assert SubOk(s, id, s.subs[id], s.tracks[id]);
    }
    LockKeepsPending(s, r, s');
    LockKeepsSubs(s, r, s');
  }

  /** Entries that are not touched stay in order when their in-flight records stay the same. */
  lemma OthersKeepSub(s: State, s': State, id: nat, u: Sub, t: Track)
    requires SubOk(s, id, u, t)
    requires s'.log == s.log && s'.ringSize == s.ringSize && s'.subBuffer == s.subBuffer
    requires forall k: nat :: (k in s'.pending && id in s'.pending[k]) <==> (k in s.pending && id in s.pending[k])
    ensures SubOk(s', id, u, t)
  {
    forall k: nat
      ensures Attempts(t, k) + InFlight(s'.log, s'.pending, id, u.filter, k)
              == Owed(s'.log, Start(s'.ringSize, t), u.filter, k)
    {
      assert Attempts(t, k) + InFlight(s.log, s.pending, id, u.filter, k)
          == Owed(s.log, Start(s.ringSize, t), u.filter, k);
    }
  }

  lemma AttemptsOfSent(t: Track, u: Sub, k: nat, r: Record, n: nat)
    ensures Attempts(Sent(t, u, k, r), n) == Attempts(t, n) + if n == k && Accepts(u.filter, r) then 1 else 0
  {
  }

  lemma SendKeepsCount(s: State, k: nat, id: nat, u: Sub, t: Track, pending: map<nat, set<nat>>)
    requires k < |s.log| && k in s.pending && id in s.pending[k] && pending == s.pending[k := s.pending[k] - {id}]
    requires Counted(s, id, u, t)
    ensures Counted(s.(pending := pending), id, Offer(u, s.log[k]), Sent(t, u, k, s.log[k]))
  {
    var t' := Sent(t, u, k, s.log[k]);
    forall n: nat
      ensures Attempts(t', n) + InFlight(s.log, pending, id, u.filter, n)
              == Owed(s.log, Start(s.ringSize, t'), u.filter, n)
    {
      assert Attempts(t, n) + InFlight(s.log, s.pending, id, u.filter, n)
          == Owed(s.log, Start(s.ringSize, t), u.filter, n);
      AttemptsOfSent(t, u, k, s.log[k], n);
    }
  }

  lemma SentContents(log: seq<Record>, u: Sub, t: Track, k: nat)
    requires ContentsOk(log, u, t) && k < |log|
    ensures ContentsOk(log, Offer(u, log[k]), Sent(t, u, k, log[k]))
  {
    var u', t' := Offer(u, log[k]), Sent(t, u, k, log[k]);
    if t'.enq == t.enq + [k] {
      assert Lookup(log, t'.enq) == Lookup(log, t.enq) + [log[k]];
    }
  }

  lemma SendKeepsSub(s: State, k: nat, id: nat, u: Sub, t: Track)
    requires Enabled(s, Send(k, id)) && s.subs[id] == u && s.tracks[id] == t
    requires SubOk(s, id, u, t) && t.at <= k
    ensures SubOk(Apply(s, Send(k, id)), id, Offer(u, s.log[k]), Sent(t, u, k, s.log[k]))
  {
    SendKeepsCount(s, k, id, u, t, s.pending[k := s.pending[k] - {id}]);
    SentContents(s.log, u, t, k);
  }

  predicate SameStart(s: State, s': State, id: nat) {
    id in s.tracks && id in s'.subs && id in s'.tracks && s'.tracks[id].at == s.tracks[id].at
  }

  /** Pending sends stay in order when none is added and the subscriptions they name stay. */
  lemma PendingKept(s: State, s': State)
    requires PendingOk(s) && s'.log == s.log && s.nextID <= s'.nextID
    requires forall k <- s'.pending :: k in s.pending && s'.pending[k] <= s.pending[k]
    requires forall id :: id in s.subs && id in s.tracks && !Settled(s'.pending, id) ==> SameStart(s, s', id)
    ensures PendingOk(s')
  {
    forall k, id | k in s'.pending && id in s'.pending[k]
      ensures id in s'.subs && id in s'.tracks && id < s'.nextID && s'.tracks[id].at <= k
    {
      assert id in s.pending[k];
      assert !Settled(s'.pending, id);
      assert SameStart(s, s', id);
    }
  }

  lemma SendKeepsPending(s: State, k: nat, id: nat, s': State)
    requires PendingOk(s) && NamesOk(s) && Enabled(s, Send(k, id)) && s' == Apply(s, Send(k, id))
    ensures PendingOk(s') && NamesOk(s')
  {
    assert forall j :: j in s.subs && j in s.tracks ==> SameStart(s, s', j);
    PendingKept(s, s');
  }

  lemma SendKeepsSubs(s: State, k: nat, id: nat, s': State)
    requires SubsOk(s) && Enabled(s, Send(k, id)) && s' == Apply(s, Send(k, id)) && s.tracks[id].at <= k
    ensures SubsOk(s')
  {
    forall j <- s'.subs
      ensures SubOk(s', j, s'.subs[j], s'.tracks[j])
    {
      if j == id {
        SendKeepsSub(s, k, id, s.subs[id], s.tracks[id]);
      } else {
        OthersKeepSub(s, s', j, s.subs[j], s.tracks[j]);
      }
    }
  }

  lemma SendKeepsInv(s: State, k: nat, id: nat, s': State)
    requires Inv(s) && Enabled(s, Send(k, id)) && s' == Apply(s, Send(k, id))
    ensures Inv(s')
  {
    SendKeepsPending(s, k, id, s');
    SendKeepsSubs(s, k, id, s');
  }

  lemma {:induction false} DistinctOnce(s: seq<nat>, k: nat)
    requires Increasing(s)
    ensures multiset(s)[k] == if k in s then 1 else 0
  {
    if s == [] {
    } else {
      var n := |s| - 1;
      DistinctOnce(s[..n], k);
      assert s == s[..n] + [s[n]];
    }
  }

  lemma SplitCount(hits: seq<nat>, kept: nat, k: nat)
    requires Increasing(hits) && kept <= |hits|
    ensures multiset(hits[..kept])[k] + multiset(hits[kept..])[k] == if k in hits then 1 else 0
  {
    DistinctOnce(hits, k);
    assert hits == hits[..kept] + hits[kept..];
  }

  lemma PositionsInLog(log: seq<Record>, ring: seq<Record>, f: Filter, start: nat, k: nat)
    requires start + |ring| == |log| && ring == log[start..]
    ensures k in Positions(f, ring, start) <==> start <= k < |log| && Matches(log, f, k)
  {
    SelectIsComplete(f, ring, start, k);
  }

  /** What a replaying registration records about the ring, in terms of the log. */
  lemma RingTrack(log: seq<Record>, ring: seq<Record>, f: Filter, start: nat, hits: seq<nat>, kept: nat)
    requires start + |ring| == |log| && ring == log[start..]
    requires hits == Positions(f, ring, start) && kept <= |hits|
    ensures Increasing(hits) && Increasing(hits[..kept])
    ensures forall k: nat :: k in hits <==> start <= k < |log| && Matches(log, f, k)
    ensures forall i :: 0 <= i < kept ==> hits[..kept][i] < |log|
    ensures |hits| == |Select(f, ring)| && Select(f, ring)[..kept] == Lookup(log, hits[..kept])
  {
    SelectInOrder(f, ring, start);
    forall k: nat
      ensures k in hits <==> start <= k < |log| && Matches(log, f, k)
    {
      PositionsInLog(log, ring, f, start, k);
    }
    forall i | 0 <= i < kept
      ensures hits[..kept][i] < |log| && Select(f, ring)[..kept][i] == log[hits[..kept][i]]
    {
      assert hits[..kept][i] == hits[i];
    }
  }

  lemma NewReplayOk(ringSize: nat, log: seq<Record>, ring: seq<Record>, f: Filter, u: Sub, t: Track)
    requires ring == Newest(log, ringSize) && u.filter == f && t == NewTrack(log, ring, u.cap, f, true)
    ensures ReplayOk(ringSize, log, u, t)
  {
    var start := |log| - |ring|;
    assert ring == log[start..];
    assert start == Start(ringSize, t);
    RingTrack(log, ring, f, start, t.replayed, Min(u.cap, |t.replayed|));
  }

  lemma NewContentsOk(ringSize: nat, log: seq<Record>, ring: seq<Record>, f: Filter, u: Sub, t: Track)
    requires ring == Newest(log, ringSize)
    requires u == NewSub(ring, u.cap, f, true) && t == NewTrack(log, ring, u.cap, f, true)
    ensures ContentsOk(log, u, t) && Increasing(t.enq)
  {
    var start := |log| - |ring|;
    assert ring == log[start..];
    RingTrack(log, ring, f, start, t.replayed, Min(u.cap, |t.replayed|));
    assert [] + u.ch == u.ch;
  }

  /** A new subscription begins in order: its replay is recorded, its channel holds it. */
  lemma NewSubBegins(ringSize: nat, log: seq<Record>, ring: seq<Record>, f: Filter, replay: bool, u: Sub, t: Track)
    requires ring == Newest(log, ringSize)
    requires u == NewSub(ring, u.cap, f, replay) && t == NewTrack(log, ring, u.cap, f, replay)
    ensures ReplayOk(ringSize, log, u, t)
    ensures ContentsOk(log, u, t) && Increasing(t.enq)
  {
    if replay {
      NewReplayOk(ringSize, log, ring, f, u, t);
      NewContentsOk(ringSize, log, ring, f, u, t);
    } else {
      assert t == Track(|log|, false, [], [], [], [], []);
    }
  }

  lemma NewTrackCounted(s: State, f: Filter, replay: bool, id: nat)
    requires s.ring == Newest(s.log, s.ringSize)
    requires Settled(s.pending, id)
    ensures Counted(s, id, NewSub(s.ring, s.subBuffer, f, replay), NewTrack(s.log, s.ring, s.subBuffer, f, replay))
  {
    var t := NewTrack(s.log, s.ring, s.subBuffer, f, replay);
    NewSubBegins(s.ringSize, s.log, s.ring, f, replay, NewSub(s.ring, s.subBuffer, f, replay), t);
    forall k: nat
      ensures Attempts(t, k) + InFlight(s.log, s.pending, id, f, k) == Owed(s.log, Start(s.ringSize, t), f, k)
    {
      SplitCount(t.replayed, Min(s.subBuffer, |t.replayed|), k);
      assert k in t.replayed <==> Start(s.ringSize, t) <= k < t.at && Matches(s.log, f, k);
    }
  }

  lemma NextIdIsFresh(s: State)
    requires Inv(s)
    ensures s.nextID !in s.subs && Settled(s.pending, s.nextID)
  {
  }

  lemma NewSubOk(s: State, f: Filter, replay: bool)
    requires Inv(s)
    ensures SubOk(s, s.nextID, NewSub(s.ring, s.subBuffer, f, replay), NewTrack(s.log, s.ring, s.subBuffer, f, replay))
  {
    NextIdIsFresh(s);
    var u, t := NewSub(s.ring, s.subBuffer, f, replay), NewTrack(s.log, s.ring, s.subBuffer, f, replay);
    NewSubBegins(s.ringSize, s.log, s.ring, f, replay, u, t);
    NewTrackCounted(s, f, replay, s.nextID);
  }

  lemma PutKeepsPending(s: State, id: nat, u: Sub, t: Track, s': State)
    requires PendingOk(s) && NamesOk(s) && id <= s.nextID
    requires s' == Put(s, id, u, t).(nextID := if id == s.nextID then s.nextID + 1 else s.nextID)
    requires id in s.tracks ==> s.tracks[id].at == t.at
    ensures PendingOk(s') && NamesOk(s')
  {
    assert forall j :: j in s.subs && j in s.tracks ==> SameStart(s, s', j);
    PendingKept(s, s');
  }

  lemma PutKeepsSub(s: State, id: nat, u: Sub, t: Track, s': State, j: nat)
    requires s.subs.Keys == s.tracks.Keys && SubOk(s, id, u, t)
    requires j == id || (j in s.subs && SubOk(s, j, s.subs[j], s.tracks[j]))
    requires s' == Put(s, id, u, t).(nextID := s'.nextID)
    ensures SubOk(s', j, s'.subs[j], s'.tracks[j])
  {
    if j == id {
      OthersKeepSub(s, s', j, u, t);
    } else {
      OthersKeepSub(s, s', j, s.subs[j], s.tracks[j]);
    }
  }

  lemma PutKeepsSubs(s: State, id: nat, u: Sub, t: Track, s': State)
    requires SubsOk(s) && SubOk(s, id, u, t)
    requires s' == Put(s, id, u, t).(nextID := s'.nextID)
    ensures SubsOk(s')
  {
    forall j <- s'.subs
      ensures SubOk(s', j, s'.subs[j], s'.tracks[j])
    {
      PutKeepsSub(s, id, u, t, s', j);
    }
  }

  /** Putting a subscription in order into the maps keeps the invariant. */
  lemma PutKeepsInv(s: State, id: nat, u: Sub, t: Track, s': State)
    requires Inv(s) && SubOk(s, id, u, t) && id <= s.nextID
    requires s' == Put(s, id, u, t).(nextID := if id == s.nextID then s.nextID + 1 else s.nextID)
    requires id in s.tracks ==> s.tracks[id].at == t.at
    ensures Inv(s')
  {
    PutKeepsPending(s, id, u, t, s');
    PutKeepsSubs(s, id, u, t, s');
  }

  lemma SubscribeKeepsInv(s: State, f: Filter, replay: bool, s': State)
    requires Inv(s) && s' == Apply(s, Subscribe(f, replay))
    ensures Inv(s')
  {
    NewSubOk(s, f, replay);
    NextIdIsFresh(s);
    var u, t := NewSub(s.ring, s.subBuffer, f, replay), NewTrack(s.log, s.ring, s.subBuffer, f, replay);
    PutKeepsInv(s, s.nextID, u, t, s');
  }

  lemma ReceiveKeepsSub(s: State, id: nat, u: Sub, t: Track)
    requires SubOk(s, id, u, t) && u.ch != []
    ensures SubOk(s, id, u.(ch := u.ch[1..]), t.(received := t.received + [u.ch[0]]))
  {
    var u', t' := u.(ch := u.ch[1..]), t.(received := t.received + [u.ch[0]]);
    assert t'.received + u'.ch == t.received + u.ch;
    forall k: nat
      ensures Attempts(t', k) == Attempts(t, k)
    {
    }
  }

  lemma ReceiveKeepsInv(s: State, id: nat, s': State)
    requires Inv(s) && Enabled(s, Receive(id)) && s' == Apply(s, Receive(id))
    ensures Inv(s')
  {
    var u, t := s.subs[id], s.tracks[id];
    ReceiveKeepsSub(s, id, u, t);
    PutKeepsInv(s, id, u.(ch := u.ch[1..]), t.(received := t.received + [u.ch[0]]), s');
  }

  lemma CloseKeepsPending(s: State, id: nat, s': State)
    requires PendingOk(s) && NamesOk(s) && Enabled(s, Close(id)) && s' == Apply(s, Close(id))
    ensures PendingOk(s') && NamesOk(s')
  {
    assert forall j :: j in s.subs && j in s.tracks && !Settled(s'.pending, j) ==> SameStart(s, s', j);
    PendingKept(s, s');
  }

  lemma CloseKeepsSubs(s: State, id: nat, s': State)
    requires SubsOk(s) && s' == s.(subs := s.subs - {id}, tracks := s.tracks - {id})
    ensures SubsOk(s')
  {
    forall j <- s'.subs
      ensures SubOk(s', j, s'.subs[j], s'.tracks[j])
    {
      OthersKeepSub(s, s', j, s.subs[j], s.tracks[j]);
    }
  }

  lemma CloseKeepsInv(s: State, id: nat, s': State)
    requires Inv(s) && Enabled(s, Close(id)) && s' == Apply(s, Close(id))
    ensures Inv(s')
  {
    CloseKeepsPending(s, id, s');
    CloseKeepsSubs(s, id, s');
  }

  lemma StepKeepsInv(s: State, step: Step)
    requires Inv(s) && Enabled(s, step)
    ensures Inv(Apply(s, step))
  {
    match step
    case Lock(r) => LockKeepsInv(s, r, Apply(s, step));
    case Send(k, id) => SendKeepsInv(s, k, id, Apply(s, step));
    case Subscribe(f, replay) => SubscribeKeepsInv(s, f, replay, Apply(s, step));
    case Receive(id) => ReceiveKeepsInv(s, id, Apply(s, step));
    case Close(id) => CloseKeepsInv(s, id, Apply(s, step));
  }

  lemma {:induction false} RunKeepsInv(s: State, steps: seq<Step>)
    requires Inv(s) && ValidRun(s, steps)
    ensures Inv(Final(s, steps))
    ensures Final(s, steps).ringSize == s.ringSize && Final(s, steps).subBuffer == s.subBuffer
    decreases steps
  {
    if steps == [] {
    } else {
      StepKeepsInv(s, steps[0]);
      RunKeepsInv(Apply(s, steps[0]), steps[1..]);
    }
  }

  // ------------------------------------------------------------------
  // Replay/live handoff
  // ------------------------------------------------------------------

  /** Over every interleaving: once no publication still owes this subscription a send, each
      matching record that was in the ring at registration (when replaying) or was published
      later has been attempted exactly once, and nothing else has. */
  lemma HandoffIsExactlyOnce(ringSize: nat, subBuffer: nat, steps: seq<Step>, id: nat)
    requires subBuffer > 0 && ValidRun(Init(ringSize, subBuffer), steps)
    requires id in Final(Init(ringSize, subBuffer), steps).subs
    requires Settled(Final(Init(ringSize, subBuffer), steps).pending, id)
    ensures var s := Final(Init(ringSize, subBuffer), steps);
            && id in s.tracks
            && var t, f := s.tracks[id], s.subs[id].filter;
               forall k: nat ::
                 Attempts(t, k)
                 == if Start(ringSize, t) <= k < |s.log| && (f.None? || f.value(s.log[k])) then 1 else 0
  {
    var s := Final(Init(ringSize, subBuffer), steps);
    RunKeepsInv(Init(ringSize, subBuffer), steps);
    var t, f := s.tracks[id], s.subs[id].filter;
    assert SubOk(s, id, s.subs[id], t);
    forall k: nat
      ensures Attempts(t, k) == Owed(s.log, Start(ringSize, t), f, k)
    {
      assert Attempts(t, k) + InFlight(s.log, s.pending, id, f, k) == Owed(s.log, Start(ringSize, t), f, k);
    }
  }

  // ------------------------------------------------------------------
  // Drops
  // ------------------------------------------------------------------

  /** The step sends subscription id a record that its filter accepts. */
  predicate SendsMatch(s: State, step: Step, id: nat) {
    step.Send? && step.id == id && id in s.subs && step.k < |s.log|
    && (s.subs[id].filter.None? || s.subs[id].filter.value(s.log[step.k]))
  }

  /** ... and finds its channel holding subBuffer records. */
  predicate MeetsFull(s: State, step: Step, id: nat) {
    SendsMatch(s, step, id) && |s.subs[id].ch| == s.subBuffer
  }

  function FullMeetings(s: State, steps: seq<Step>, id: nat): nat
    requires ValidRun(s, steps)
    decreases steps
  {
    if steps == [] then 0
    else (if MeetsFull(s, steps[0], id) then 1 else 0) + FullMeetings(Apply(s, steps[0]), steps[1..], id)
  }

  /** One step: a matching send with room queues the record; only one without room is dropped. */
  lemma StepDrops(s: State, step: Step, id: nat, s': State)
    requires Inv(s) && Enabled(s, step) && id in s.subs && step != Close(id) && s' == Apply(s, step)
    ensures id in s'.subs && s'.subs[id].filter == s.subs[id].filter
    ensures s'.subs[id].dropped == s.subs[id].dropped + if MeetsFull(s, step, id) then 1 else 0
    ensures SendsMatch(s, step, id) && !MeetsFull(s, step, id) ==>
              s'.subs[id].ch == s.subs[id].ch + [s.log[step.k]] && |s'.subs[id].ch| <= s.subBuffer
  {
    NextIdIsFresh(s);
    assert SubOk(s, id, s.subs[id], s.tracks[id]);
    if step.Send? && step.k < |s.log| {
      OfferMeaning(s.subs[id], s.log[step.k]);
    }
  }

  /** Over every interleaving the drop counter is exactly the number of matching sends that
      found subBuffer records unread in the channel: a subscriber that keeps up loses nothing. */
  lemma {:induction false} DropsAreFullMeetings(s: State, steps: seq<Step>, id: nat)
    requires Inv(s) && ValidRun(s, steps) && id in s.subs && Close(id) !in steps
    ensures id in Final(s, steps).subs
    ensures Final(s, steps).subs[id].dropped == s.subs[id].dropped + FullMeetings(s, steps, id)
    decreases steps
  {
    if steps == [] {
    } else {
      StepDrops(s, steps[0], id, Apply(s, steps[0]));
      StepKeepsInv(s, steps[0]);
      DropsAreFullMeetings(Apply(s, steps[0]), steps[1..], id);
    }
  }

  // ------------------------------------------------------------------
  // Replay order
  // ------------------------------------------------------------------

  /** The ring records that matched when the subscription registered. */
  function OwedFromRing(ringSize: nat, log: seq<Record>, f: Filter, t: Track): seq<Record>
    requires t.at <= |log|
  {
    Select(f, if t.replay then Newest(log[..t.at], ringSize) else [])
  }

  /** Reading from a subscription yields what was sent: first replayed records, then live ones. */
  ghost predicate ReadsReplayThenLive(ringSize: nat, log: seq<Record>, u: Sub, t: Track)
    requires t.at <= |log|
  {
    var read := t.received + u.ch;
    var owed := OwedFromRing(ringSize, log, u.filter, t);
    var kept := Min(u.cap, |owed|);
    && |read| == |t.enq| && kept <= |read|
    && (forall i :: 0 <= i < |read| ==> t.enq[i] < |log| && read[i] == log[t.enq[i]])
    && (forall i :: 0 <= i < kept ==> read[i] == owed[i])
    && (forall i :: 0 <= i < |read| ==> (i < kept <==> t.enq[i] < t.at))
  }

  lemma LastIsGreatest(a: seq<nat>, k: nat)
    requires Increasing(a) && a != []
    ensures Increasing(a[..|a| - 1])
    ensures k in a ==> k <= a[|a| - 1]
    ensures k in a[..|a| - 1] <==> k in a && k != a[|a| - 1]
  {
    assert a == a[..|a| - 1] + [a[|a| - 1]];
  }

  /** Increasing sequences with the same members are equal. */
  lemma {:induction false} SameMembers(a: seq<nat>, b: seq<nat>)
    requires Increasing(a) && Increasing(b) && forall k: nat :: k in a <==> k in b
    ensures a == b
  {
    assert |b| > 0 ==> b[0] in b && b[0] in a;
    if a == [] {
    } else {
      assert a[0] in b;
      var x, y := a[|a| - 1], b[|b| - 1];
      LastIsGreatest(a, y);
      LastIsGreatest(b, x);
      assert x in b && y in a;
      assert x == y;
      var a', b' := a[..|a| - 1], b[..|b| - 1];
      forall k: nat
        ensures k in a' <==> k in b'
      {
        LastIsGreatest(a, k);
        LastIsGreatest(b, k);
      }
      SameMembers(a', b');
      assert a == a' + [x] && b == b' + [y];
    }
  }

  lemma ReplayedPositions(log: seq<Record>, f: Filter, start: nat, at: nat, replayed: seq<nat>)
    requires start <= at <= |log| && Increasing(replayed)
    requires forall k: nat :: k in replayed <==> start <= k < at && Matches(log, f, k)
    ensures Positions(f, log[start..at], start) == replayed
  {
    SelectInOrder(f, log[start..at], start);
    forall k: nat
      ensures k in Positions(f, log[start..at], start) <==> k in replayed
    {
      SelectIsComplete(f, log[start..at], start, k);
    }
    SameMembers(Positions(f, log[start..at], start), replayed);
  }

  lemma ReplayedIsOwed(ringSize: nat, log: seq<Record>, u: Sub, t: Track)
    requires ReplayOk(ringSize, log, u, t)
    ensures |t.replayed| == |OwedFromRing(ringSize, log, u.filter, t)|
    ensures forall i :: 0 <= i < |t.replayed| ==>
              t.replayed[i] < t.at && OwedFromRing(ringSize, log, u.filter, t)[i] == log[t.replayed[i]]
  {
    var start := Start(ringSize, t);
    var window := if t.replay then Newest(log[..t.at], ringSize) else [];
    assert window == log[start..t.at];
    ReplayedPositions(log, u.filter, start, t.at, t.replayed);
    SelectInOrder(u.filter, window, start);
  }

  /** In every reachable state a subscriber's reads begin with the replay: the first
      min(subBuffer, matches) matching ring records, in order, before any live record. */
  lemma ReplayComesFirst(ringSize: nat, subBuffer: nat, steps: seq<Step>, id: nat)
    requires subBuffer > 0 && ValidRun(Init(ringSize, subBuffer), steps)
    requires id in Final(Init(ringSize, subBuffer), steps).subs
    ensures var s := Final(Init(ringSize, subBuffer), steps);
            && id in s.tracks && s.tracks[id].at <= |s.log| && s.subs[id].cap == subBuffer
            && ReadsReplayThenLive(ringSize, s.log, s.subs[id], s.tracks[id])
  {
    var s := Final(Init(ringSize, subBuffer), steps);
    RunKeepsInv(Init(ringSize, subBuffer), steps);
    var t, u := s.tracks[id], s.subs[id];
    assert SubOk(s, id, u, t);
    ReplayedIsOwed(ringSize, s.log, u, t);
  }

  // ------------------------------------------------------------------
  // Each publisher's order
  // ------------------------------------------------------------------

  /** Who publishes what: the publisher of each log position. */
  type Publishers = nat -> nat

  /** A publisher starts no publication before its previous one has made all its sends; other
      publishers may overlap it. */
  predicate PublisherIsFree(s: State, who: Publishers) {
    forall k <- s.pending :: who(k) == who(|s.log|) ==> s.pending[k] == {}
  }

  predicate Sequential(s: State, who: Publishers, steps: seq<Step>)
    requires ValidRun(s, steps)
    decreases steps
  {
    steps == [] ||
    ((steps[0].Lock? ==> PublisherIsFree(s, who)) && Sequential(Apply(s, steps[0]), who, steps[1..]))
  }

  /** Positions of one publisher appear in increasing order. */
  ghost predicate InOrder(at: seq<nat>, who: Publishers) {
    forall i, j :: 0 <= i < j < |at| && who(at[i]) == who(at[j]) ==> at[i] < at[j]
  }

  /** A publication with sends to come is its publisher's latest. */
  ghost predicate LatestPending(s: State, who: Publishers) {
    forall k, j :: k in s.pending && s.pending[k] != {} && k < j < |s.log| ==> who(j) != who(k)
  }

  ghost predicate Orderly(s: State, who: Publishers) {
    && LatestPending(s, who)
    && (forall id <- s.tracks :: InOrder(s.tracks[id].enq, who))
  }

  lemma LatestGoesLast(at: seq<nat>, who: Publishers, k: nat, n: nat)
    requires InOrder(at, who) && k !in multiset(at)
    requires forall i :: 0 <= i < |at| ==> at[i] < n
    requires forall j :: k < j < n ==> who(j) != who(k)
    ensures InOrder(at + [k], who)
  {
    forall i | 0 <= i < |at| && who(at[i]) == who(k)
      ensures at[i] < k
    {
      assert at[i] in multiset(at);
    }
  }

  lemma SendKeepsOrderly(s: State, who: Publishers, k: nat, id: nat, s': State)
    requires Inv(s) && Orderly(s, who) && Enabled(s, Send(k, id)) && s' == Apply(s, Send(k, id))
    ensures Orderly(s', who)
  {
    var t, u := s.tracks[id], s.subs[id];
    assert SubOk(s, id, u, t);
    assert s.pending[k] != {};
    assert Attempts(t, k) + InFlight(s.log, s.pending, id, u.filter, k)
        == Owed(s.log, Start(s.ringSize, t), u.filter, k);
    if Sent(t, u, k, s.log[k]).enq != t.enq {
      LatestGoesLast(t.enq, who, k, |s.log|);
    }
    forall n, j | n in s'.pending && s'.pending[n] != {} && n < j < |s'.log|
      ensures who(j) != who(n)
    {
      assert s.pending[n] != {};
    }
  }

  lemma SubscribeKeepsOrderly(s: State, who: Publishers, f: Filter, replay: bool, s': State)
    requires Inv(s) && Orderly(s, who) && s' == Apply(s, Subscribe(f, replay))
    ensures Orderly(s', who)
  {
    var u, t := NewSub(s.ring, s.subBuffer, f, replay), NewTrack(s.log, s.ring, s.subBuffer, f, replay);
    NewSubBegins(s.ringSize, s.log, s.ring, f, replay, u, t);
    assert InOrder(t.enq, who);
  }

  lemma StepKeepsOrderly(s: State, who: Publishers, step: Step, s': State)
    requires Inv(s) && Orderly(s, who) && Enabled(s, step) && s' == Apply(s, step)
    requires step.Lock? ==> PublisherIsFree(s, who)
    ensures Orderly(s', who)
  {
    match step
    case Send(k, id) => SendKeepsOrderly(s, who, k, id, s');
    case Subscribe(f, replay) => SubscribeKeepsOrderly(s, who, f, replay, s');
    case _ =>
  }

  /** Whatever overlaps, every subscriber reads each publisher's records in that publisher's
      order: replayed and live, with gaps where records were dropped. With one publisher
      (a constant `who`) that is the publish order. */
  lemma {:induction false} PublishersKeepOrder(s: State, who: Publishers, steps: seq<Step>)
    requires Inv(s) && Orderly(s, who) && ValidRun(s, steps) && Sequential(s, who, steps)
    ensures Orderly(Final(s, steps), who)
    decreases steps
  {
    if steps == [] {
    } else {
      StepKeepsInv(s, steps[0]);
      StepKeepsOrderly(s, who, steps[0], Apply(s, steps[0]));
      PublishersKeepOrder(Apply(s, steps[0]), who, steps[1..]);
    }
  }
}
