/** Watermark polling with checkpoints, over any totally ordered key: the common core of
    connectors/usgsearthquakes, connectors/openaq and connectors/nasafirms. */
module Watermark {
  import opened Common

  /** One feed entry: its key, its source ID, and whether it passes the connector's filter. */
  datatype Entry<K> = Entry(key: K, id: string, accepted: bool)

  ghost predicate StrictTotal<K(!new)>(less: (K, K) -> bool) {
    && (forall a :: !less(a, a))
    && (forall a, b, c :: less(a, b) && less(b, c) ==> less(a, c))
    && (forall a, b :: a == b || less(a, b) || less(b, a))
  }

  predicate AtMost<K(==)>(less: (K, K) -> bool, a: K, b: K) { a == b || less(a, b) }

  /** The entries a successful poll emits. */
  function Emitted<K>(less: (K, K) -> bool, feed: seq<Entry<K>>, last: K): seq<Entry<K>> {
    if feed == [] then []
    else
      var e := feed[|feed| - 1];
      Emitted(less, feed[..|feed| - 1], last) + if less(last, e.key) && e.accepted then [e] else []
  }

  /** The watermark after it. */
  function Mark<K>(less: (K, K) -> bool, feed: seq<Entry<K>>, last: K): K {
    if feed == [] then last
    else
      var e := feed[|feed| - 1];
      var m := Mark(less, feed[..|feed| - 1], last);
      if less(last, e.key) && e.accepted && less(m, e.key) then e.key else m
  }

  lemma {:induction false} EmittedAre<K(!new)>(less: (K, K) -> bool, feed: seq<Entry<K>>, last: K)
    ensures forall e :: e in Emitted(less, feed, last) <==> e in feed && e.accepted && less(last, e.key)
  {
    if feed == [] {
    } else {
      var n := |feed| - 1;
      EmittedAre(less, feed[..n], last);
      assert feed == feed[..n] + [feed[n]];
    }
  }

  lemma {:induction false} MarkIsGreatest<K(!new)>(less: (K, K) -> bool, feed: seq<Entry<K>>, last: K)
    requires StrictTotal(less)
    ensures forall e <- Emitted(less, feed, last) :: AtMost(less, e.key, Mark(less, feed, last))
    ensures AtMost(less, last, Mark(less, feed, last))
  {
    if feed == [] {
    } else {
      MarkIsGreatest(less, feed[..|feed| - 1], last);
    }
  }

  lemma {:induction false} MarkIsEmitted<K(!new)>(less: (K, K) -> bool, feed: seq<Entry<K>>, last: K)
    requires StrictTotal(less)
    ensures if Emitted(less, feed, last) == [] then Mark(less, feed, last) == last
            else exists e <- Emitted(less, feed, last) :: e.key == Mark(less, feed, last)
  {
    if feed == [] {
    } else {
      var before, e := feed[..|feed| - 1], feed[|feed| - 1];
      MarkIsEmitted(less, before, last);
      MarkIsGreatest(less, before, last);
      if less(last, e.key) && e.accepted {
        assert e in Emitted(less, before, last) + [e];
      }
    }
  }

  /** A poll emits exactly the accepted entries above the watermark, and moves the watermark
      to the greatest of them. */
  lemma {:induction false} PollMeaning<K(!new)>(less: (K, K) -> bool, feed: seq<Entry<K>>, last: K)
    requires StrictTotal(less)
    ensures forall e :: e in Emitted(less, feed, last) <==> e in feed && e.accepted && less(last, e.key)
    ensures forall e <- Emitted(less, feed, last) :: AtMost(less, e.key, Mark(less, feed, last))
    ensures AtMost(less, last, Mark(less, feed, last))
    ensures if Emitted(less, feed, last) == [] then Mark(less, feed, last) == last
            else exists e <- Emitted(less, feed, last) :: e.key == Mark(less, feed, last)
  {
    EmittedAre(less, feed, last);
    MarkIsGreatest(less, feed, last);
    MarkIsEmitted(less, feed, last);
  }

  // ------------------------------------------------------------------
  // Runs across crashes
  // ------------------------------------------------------------------

  /** `last` is the in-memory watermark and `saved` the stored checkpoint. History: the keys
      emitted by each poll, those emitted since the last save, and those that were still
      unsaved at some crash. */
  datatype State<K> = State(last: K, saved: K, polls: seq<seq<K>>, unsaved: seq<K>, exposed: seq<K>)

  datatype Step<K> =
    | Poll(feed: seq<Entry<K>>, saves: bool)    // fetched; the checkpoint write may fail
    | FetchFails
    | Crash(feed: seq<Entry<K>>, published: nat) // dies in a poll, then restarts from the checkpoint
    | CrashBadLoad(zero: K)                      // restarts, but the checkpoint cannot be read

  function Keys<K>(es: seq<Entry<K>>): seq<K> {
    seq(|es|, i requires 0 <= i < |es| => es[i].key)
  }

  function Apply<K(==)>(less: (K, K) -> bool, s: State<K>, step: Step<K>): State<K> {
    match step
    case Poll(feed, saves) =>
      var keys := Keys(Emitted(less, feed, s.last));
      var mark := Mark(less, feed, s.last);
      if keys == [] then s.(last := mark, polls := s.polls + [keys])
      else if saves then s.(last := mark, saved := mark, polls := s.polls + [keys], unsaved := [])
      else s.(last := mark, polls := s.polls + [keys], unsaved := s.unsaved + keys)
    case FetchFails => s
    case Crash(feed, published) =>
      var keys := Keys(Emitted(less, feed, s.last));
      var out := keys[..Min(published, |keys|)];
      State(s.saved, s.saved, s.polls + [out], [], s.exposed + s.unsaved + out)
    case CrashBadLoad(zero) =>
      State(zero, s.saved, s.polls, [], s.exposed + s.unsaved)
  }

  function RunAll<K(==)>(less: (K, K) -> bool, s: State<K>, steps: seq<Step<K>>): State<K> {
    if steps == [] then s else Apply(less, RunAll(less, s, steps[..|steps| - 1]), steps[|steps| - 1])
  }

  function Fresh<K>(zero: K): State<K> { State(zero, zero, [], [], []) }

  predicate LoadsSucceed<K(==)>(steps: seq<Step<K>>) {
    forall i :: 0 <= i < |steps| ==> !steps[i].CrashBadLoad?
  }

  /** An emitted key is below the checkpoint, or below the watermark and unsaved, or was
      exposed by a crash. */
  ghost predicate Covered<K(!new)>(less: (K, K) -> bool, s: State<K>, k: K) {
    k in s.exposed || AtMost(less, k, s.saved) || (k in s.unsaved && AtMost(less, k, s.last))
  }

  ghost predicate Repeats<K(!new)>(polls: seq<seq<K>>, k: K) {
    exists i, j :: 0 <= i < j < |polls| && k in polls[i] && k in polls[j]
  }

  ghost predicate Inv<K(!new)>(less: (K, K) -> bool, s: State<K>) {
    && AtMost(less, s.saved, s.last)
    && (forall i, k :: 0 <= i < |s.polls| && k in s.polls[i] ==> Covered(less, s, k))
    && (forall k :: Repeats(s.polls, k) ==> k in s.exposed)
  }

  lemma KeysOf<K(!new)>(less: (K, K) -> bool, feed: seq<Entry<K>>, last: K, k: K)
    requires StrictTotal(less) && k in Keys(Emitted(less, feed, last))
    ensures less(last, k) && AtMost(less, k, Mark(less, feed, last))
  {
    PollMeaning(less, feed, last);
    var es := Emitted(less, feed, last);
    var i :| 0 <= i < |es| && Keys(es)[i] == k;
    assert es[i] in es;
  }

  /** A newly emitted key that was emitted before had been exposed. */
  lemma NewKeysAreNew<K(!new)>(less: (K, K) -> bool, s: State<K>, out: seq<K>, k: K)
    requires StrictTotal(less) && Inv(less, s)
    requires forall x <- out :: less(s.last, x)
    requires Repeats(s.polls + [out], k)
    ensures k in s.exposed
  {
    var polls := s.polls + [out];
    var i, j :| 0 <= i < j < |polls| && k in polls[i] && k in polls[j];
    if j < |s.polls| {
      assert k in s.polls[i] && k in s.polls[j];
      assert Repeats(s.polls, k);
    } else {
      assert k in s.polls[i] && k in out;
      assert Covered(less, s, k);
    }
  }

  lemma PollKeepsInv<K(!new)>(less: (K, K) -> bool, s: State<K>, feed: seq<Entry<K>>, saves: bool)
    requires StrictTotal(less) && Inv(less, s)
    ensures var s' := Apply(less, s, Poll(feed, saves));
            Inv(less, s') && AtMost(less, s.saved, s'.saved) && AtMost(less, s.last, s'.last)
  {
    var s' := Apply(less, s, Poll(feed, saves));
    var keys := Keys(Emitted(less, feed, s.last));
    PollMeaning(less, feed, s.last);
    forall x | x in keys
      ensures less(s.last, x) && AtMost(less, x, s'.last)
    {
      KeysOf(less, feed, s.last, x);
    }
    forall i, k | 0 <= i < |s'.polls| && k in s'.polls[i]
      ensures Covered(less, s', k)
    {
      if i < |s.polls| {
        assert k in s.polls[i];
        assert Covered(less, s, k);
      }
    }
    forall k | Repeats(s'.polls, k)
      ensures k in s'.exposed
    {
      NewKeysAreNew(less, s, keys, k);
    }
  }

  lemma CrashKeepsInv<K(!new)>(less: (K, K) -> bool, s: State<K>, feed: seq<Entry<K>>, published: nat)
    requires StrictTotal(less) && Inv(less, s)
    ensures Inv(less, Apply(less, s, Crash(feed, published)))
  {
    var s' := Apply(less, s, Crash(feed, published));
    var keys := Keys(Emitted(less, feed, s.last));
    var out := keys[..Min(published, |keys|)];
    forall x | x in out
      ensures less(s.last, x)
    {
      assert x in keys;
      KeysOf(less, feed, s.last, x);
    }
    forall i, k | 0 <= i < |s'.polls| && k in s'.polls[i]
      ensures Covered(less, s', k)
    {
      if i < |s.polls| {
        assert k in s.polls[i];
        assert Covered(less, s, k);
      }
    }
    forall k | Repeats(s'.polls, k)
      ensures k in s'.exposed
    {
      NewKeysAreNew(less, s, out, k);
    }
  }

  /** Across any feeds, failed fetches, failed checkpoint writes, crashes and restarts that can
      read the checkpoint: the checkpoint never decreases, never passes the watermark, and
      only a key that was still unsaved at a crash is ever emitted by two polls. */
  lemma {:induction false} RunInvariant<K(!new)>(less: (K, K) -> bool, zero: K, steps: seq<Step<K>>)
    requires StrictTotal(less) && LoadsSucceed(steps)
    ensures Inv(less, RunAll(less, Fresh(zero), steps))
    ensures steps != [] ==>
              AtMost(less, RunAll(less, Fresh(zero), steps[..|steps| - 1]).saved,
                     RunAll(less, Fresh(zero), steps).saved)
  {
    if steps == [] {
    } else {
      var before := steps[..|steps| - 1];
      RunInvariant(less, zero, before);
      var s := RunAll(less, Fresh(zero), before);
      match steps[|steps| - 1] {
        case Poll(feed, saves) => PollKeepsInv(less, s, feed, saves);
        case FetchFails =>
        case Crash(feed, published) => CrashKeepsInv(less, s, feed, published);
        case CrashBadLoad(_) => assert false;
      }
    }
  }

  predicate NeverCrashes<K(==)>(steps: seq<Step<K>>) {
    forall i :: 0 <= i < |steps| ==> steps[i].Poll? || steps[i].FetchFails?
  }

  /** Crashes strike between polls only, and every checkpoint write succeeds. */
  predicate SavesEverything<K(==)>(steps: seq<Step<K>>) {
    forall i :: 0 <= i < |steps| ==>
      match steps[i]
      case Poll(_, saves) => saves
      case FetchFails => true
      case Crash(_, published) => published == 0
      case CrashBadLoad(_) => false
  }

  lemma {:induction false} NothingExposed<K(!new)>(less: (K, K) -> bool, zero: K, steps: seq<Step<K>>)
    requires NeverCrashes(steps) || SavesEverything(steps)
    ensures RunAll(less, Fresh(zero), steps).exposed == []
    ensures SavesEverything(steps) ==> RunAll(less, Fresh(zero), steps).unsaved == []
  {
    if steps == [] {
    } else {
      var n := |steps| - 1;
      assert forall i :: 0 <= i < n ==> steps[..n][i] == steps[i];
      assert steps[n] in steps;
      NothingExposed(less, zero, steps[..n]);
    }
  }

  /** Without a crash, or with crashes between polls and no failed write, no key is emitted
      twice. A failed checkpoint write alone never causes a repeat. */
  lemma NoRepeats<K(!new)>(less: (K, K) -> bool, zero: K, steps: seq<Step<K>>)
    requires StrictTotal(less) && (NeverCrashes(steps) || SavesEverything(steps))
    ensures forall k :: !Repeats(RunAll(less, Fresh(zero), steps).polls, k)
  {
    RunInvariant(less, zero, steps);
    NothingExposed(less, zero, steps);
  }

  lemma LateNotEmitted<K(!new)>(less: (K, K) -> bool, feed: seq<Entry<K>>, last: K, k: K)
    requires StrictTotal(less) && AtMost(less, k, last)
    ensures k !in Keys(Emitted(less, feed, last))
  {
    EmittedAre(less, feed, last);
    var es := Emitted(less, feed, last);
    forall i | 0 <= i < |es|
      ensures Keys(es)[i] != k
    {
      assert es[i] in es;
    }
  }

  /** Without a crash, an entry at or below the watermark is never emitted: one that first
      appears late is lost. */
  lemma {:induction false} LateEntriesAreLost<K(!new)>(less: (K, K) -> bool, s: State<K>, steps: seq<Step<K>>, k: K)
    requires StrictTotal(less) && NeverCrashes(steps) && AtMost(less, k, s.last)
    ensures var s' := RunAll(less, s, steps);
            && AtMost(less, k, s'.last) && |s.polls| <= |s'.polls|
            && forall i :: |s.polls| <= i < |s'.polls| ==> k !in s'.polls[i]
  {
    if steps == [] {
    } else {
      var n := |steps| - 1;
      assert forall i :: 0 <= i < n ==> steps[..n][i] == steps[i];
      LateEntriesAreLost(less, s, steps[..n], k);
      var mid := RunAll(less, s, steps[..n]);
      if steps[n].Poll? {
        LateNotEmitted(less, steps[n].feed, mid.last, k);
        MarkIsGreatest(less, steps[n].feed, mid.last);
      }
    }
  }

  // ------------------------------------------------------------------
  // A checkpoint that cannot be read
  // ------------------------------------------------------------------

  /** A poll that saves goes no lower than the stored checkpoint. */
  ghost predicate PollKeepsSaved<K(!new)>(less: (K, K) -> bool, last: K, saved: K, feed: seq<Entry<K>>) {
    AtMost(less, saved, Apply(less, State(last, saved, [], [], []), Poll(feed, true)).saved)
  }

  lemma OneEntryPoll<K(!new)>(less: (K, K) -> bool, last: K, saved: K, e: Entry<K>)
    requires StrictTotal(less) && less(last, e.key) && e.accepted
    ensures Apply(less, State(last, saved, [], [], []), Poll([e], true)).saved == e.key
  {
    assert [e][..0] == [];
    assert Emitted(less, [e][..0], last) == [];
    assert Emitted(less, [e], last) == [] + [e];
    assert Mark(less, [e][..0], last) == last;
    assert Mark(less, [e], last) == e.key;
  }

  /** No poll from watermark `last` can lower the stored checkpoint if and only if no key lies
      strictly between the two. A restart that could not load the checkpoint starts from the
      zero watermark, below every key that could lie in between. */
  lemma CheckpointSafeIff<K(!new)>(less: (K, K) -> bool, last: K, saved: K)
    requires StrictTotal(less)
    ensures (forall feed: seq<Entry<K>> :: PollKeepsSaved(less, last, saved, feed))
            <==> !exists k: K :: less(last, k) && less(k, saved)
  {
    if k: K :| less(last, k) && less(k, saved) {
      OneEntryPoll(less, last, saved, Entry(k, "late", true));
      assert !PollKeepsSaved(less, last, saved, [Entry(k, "late", true)]);
    } else {
      forall feed: seq<Entry<K>>
        ensures PollKeepsSaved(less, last, saved, feed)
      {
        PollMeaning(less, feed, last);
        var es := Emitted(less, feed, last);
        if es != [] {
          KeysOf(less, feed, last, Keys(es)[0]);
        }
      }
    }
  }
}
