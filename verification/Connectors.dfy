/** The three polling connectors, each against the watermark specification. */
module Connectors {
  import opened Common
  import opened Watermark
  import StringOrder

  predicate LessString(a: string, b: string) { StringOrder.Less(a, b) }

  lemma StringsAreOrdered()
    ensures StrictTotal(LessString)
  {
    forall a: string ensures !LessString(a, a) {
      StringOrder.Irreflexive(a);
    }
    forall a: string, b: string, c: string | LessString(a, b) && LessString(b, c)
      ensures LessString(a, c)
    {
      StringOrder.Transitive(a, b, c);
    }
    forall a: string, b: string ensures a == b || LessString(a, b) || LessString(b, a) {
      StringOrder.Total(a, b);
    }
  }

  predicate LessInt(a: int, b: int) { a < b }

  lemma IntsAreOrdered()
    ensures StrictTotal(LessInt)
  {
  }

  /** Integer watermarks: no poll can lower the checkpoint if and only if the watermark is at
      most one below it. */
  lemma IntCheckpointSafeIff(last: int, saved: int)
    ensures (forall feed: seq<Entry<int>> :: PollKeepsSaved(LessInt, last, saved, feed)) <==> saved <= last + 1
  {
    IntsAreOrdered();
    CheckpointSafeIff(LessInt, last, saved);
    if saved > last + 1 {
      assert LessInt(last, last + 1) && LessInt(last + 1, saved);
    }
  }

  const NUL: char := 0 as char

  lemma NothingBelowNul(k: string, saved: string)
    requires saved == "" || saved == [NUL]
    ensures k == "" || !StringOrder.Less(k, saved)
  {
    if k != "" && saved == [NUL] {
      assert NUL as int == 0;
      assert k[0] as int >= 0;
      assert saved[1..] == "";
    }
  }

  lemma BelowOneChar(c: char) returns (k: string)
    requires c != NUL
    ensures StringOrder.Less("", k) && StringOrder.Less(k, [c])
  {
    k := [NUL];
  }

  /** String watermarks: openaq and nasa-firms discard the load error and start from "". That is
      safe if and only if nothing was saved, or the least non-empty string. */
  lemma FailedLoadSafeIff(saved: string)
    ensures (forall feed: seq<Entry<string>> :: PollKeepsSaved(LessString, "", saved, feed))
            <==> saved == "" || saved == [NUL]
  {
    StringsAreOrdered();
    CheckpointSafeIff(LessString, "", saved);
    if saved == "" || saved == [NUL] {
      forall k: string
        ensures !(LessString("", k) && LessString(k, saved))
      {
        NothingBelowNul(k, saved);
      }
    } else if |saved| == 1 {
      assert saved == [saved[0]];
      var k := BelowOneChar(saved[0]);
      assert LessString("", k) && LessString(k, saved);
    } else {
      assert StringOrder.Less([saved[0]][1..], saved[1..]);
      assert LessString("", [saved[0]]) && LessString([saved[0]], saved);
    }
  }

  /** The connector's side of a run: watermark, checkpoint store, and the published source IDs. */
  datatype Outcome<K> = Outcome(last: K, saved: K, published: seq<string>)

  function Ids<K>(es: seq<Entry<K>>): seq<string> {
    seq(|es|, i requires 0 <= i < |es| => es[i].id)
  }

  /** What one poll does; `None` is a failed fetch or an undecodable body. */
  function Polled<K(==)>(less: (K, K) -> bool, o: Outcome<K>, feed: Option<seq<Entry<K>>>, saves: bool): Outcome<K> {
    if feed.None? then o
    else
      var es := Emitted(less, feed.value, o.last);
      var mark := Mark(less, feed.value, o.last);
      Outcome(mark, if es != [] && saves then mark else o.saved, o.published + Ids(es))
  }

  lemma {:induction false} NothingEmitted<K>(less: (K, K) -> bool, feed: seq<Entry<K>>, last: K)
    ensures Emitted(less, feed, last) == [] ==> Mark(less, feed, last) == last
  {
    if feed == [] {
    } else {
      NothingEmitted(less, feed[..|feed| - 1], last);
    }
  }

  /** A poll that publishes nothing leaves watermark and checkpoint; one that does stores the new
      watermark, unless the write fails. A failed fetch changes nothing. */
  lemma PolledSaves<K>(less: (K, K) -> bool, o: Outcome<K>, feed: seq<Entry<K>>, saves: bool)
    ensures Polled(less, o, None, saves) == o
    ensures var o' := Polled(less, o, Some(feed), saves);
            && o.published <= o'.published
            && (o'.published == o.published ==> o'.last == o.last && o'.saved == o.saved)
            && (o'.published != o.published ==> o'.saved == if saves then o'.last else o.saved)
  {
    NothingEmitted(less, feed, o.last);
    assert Ids(Emitted(less, feed, o.last)) == [] <==> Emitted(less, feed, o.last) == [];
  }

  // ------------------------------------------------------------------
  // Runs of a connector
  // ------------------------------------------------------------------

  function FirstOf<T>(s: seq<T>, n: nat): seq<T> { s[..Min(n, |s|)] }

  /** What a connector does in one step of a run: a poll, a failed fetch, or a crash during a
      poll followed by a restart that reads the checkpoint or fails to. */
  function ConnectorStep<K(==)>(less: (K, K) -> bool, o: Outcome<K>, step: Step<K>): Outcome<K> {
    match step
    case Poll(feed, saves) => Polled(less, o, Some(feed), saves)
    case FetchFails => Polled(less, o, None, false)
    case Crash(feed, published) =>
      Outcome(o.saved, o.saved, o.published + Ids(FirstOf(Emitted(less, feed, o.last), published)))
    case CrashBadLoad(zero) => Outcome(zero, o.saved, o.published)
  }

  function ConnectorRun<K(==)>(less: (K, K) -> bool, zero: K, steps: seq<Step<K>>): Outcome<K> {
    if steps == [] then Outcome(zero, zero, [])
    else ConnectorStep(less, ConnectorRun(less, zero, steps[..|steps| - 1]), steps[|steps| - 1])
  }

  lemma RunSnoc<K>(less: (K, K) -> bool, zero: K, steps: seq<Step<K>>, step: Step<K>)
    ensures ConnectorRun(less, zero, steps + [step]) == ConnectorStep(less, ConnectorRun(less, zero, steps), step)
  {
    assert (steps + [step])[..|steps|] == steps;
  }

  /** After any run, a connector that dies in a poll has published a first part of it, and the
      next poll starts from the stored checkpoint: whatever the run had not saved is published
      again if the feed still brings it. Without a readable checkpoint it starts from zero. */
  lemma RestartResumes<K>(less: (K, K) -> bool, zero: K, steps: seq<Step<K>>, crash: Step<K>,
                          feed: seq<Entry<K>>, saves: bool)
    requires crash.Crash? || (crash.CrashBadLoad? && crash.zero == zero)
    ensures var o, o' := ConnectorRun(less, zero, steps), ConnectorRun(less, zero, steps + [crash, Poll(feed, saves)]);
            && (crash.Crash? ==>
                  o'.published == o.published + Ids(FirstOf(Emitted(less, crash.feed, o.last), crash.published))
                                  + Ids(Emitted(less, feed, o.saved)))
            && (crash.CrashBadLoad? ==> o'.published == o.published + Ids(Emitted(less, feed, zero)))
            && (!saves ==> o'.saved == o.saved)
  {
    RunSnoc(less, zero, steps, crash);
    RunSnoc(less, zero, steps + [crash], Poll(feed, saves));
    assert steps + [crash] + [Poll(feed, saves)] == steps + [crash, Poll(feed, saves)];
  }

  /** The entries published by each poll of a run. */
  function PollsOf<K(==)>(less: (K, K) -> bool, zero: K, steps: seq<Step<K>>): seq<seq<Entry<K>>> {
    if steps == [] then []
    else
      var before, step := steps[..|steps| - 1], steps[|steps| - 1];
      var last := ConnectorRun(less, zero, before).last;
      PollsOf(less, zero, before)
      + match step
        case Poll(feed, _) => [Emitted(less, feed, last)]
        case Crash(feed, published) => [FirstOf(Emitted(less, feed, last), published)]
        case _ => []
  }

  function AllIds<K>(polls: seq<seq<Entry<K>>>): seq<string> {
    if polls == [] then [] else AllIds(polls[..|polls| - 1]) + Ids(polls[|polls| - 1])
  }

  lemma AllIdsAppend<K>(polls: seq<seq<Entry<K>>>, es: seq<Entry<K>>)
    ensures AllIds(polls + [es]) == AllIds(polls) + Ids(es)
  {
    assert (polls + [es])[..|polls|] == polls;
  }

  function AllKeys<K>(polls: seq<seq<Entry<K>>>): seq<seq<K>> {
    seq(|polls|, i requires 0 <= i < |polls| => Keys(polls[i]))
  }

  lemma AllKeysAppend<K>(polls: seq<seq<Entry<K>>>, es: seq<Entry<K>>)
    ensures AllKeys(polls + [es]) == AllKeys(polls) + [Keys(es)]
  {
  }

  lemma StepIsProtocol<K>(less: (K, K) -> bool, o: Outcome<K>, s: State<K>, step: Step<K>,
                          polls: seq<seq<Entry<K>>>, polls': seq<seq<Entry<K>>>)
    requires s.last == o.last && s.saved == o.saved
    requires o.published == AllIds(polls) && s.polls == AllKeys(polls)
    requires polls' == polls + match step
                               case Poll(feed, _) => [Emitted(less, feed, o.last)]
                               case Crash(feed, published) => [FirstOf(Emitted(less, feed, o.last), published)]
                               case _ => []
    ensures var o', s' := ConnectorStep(less, o, step), Apply(less, s, step);
            && s'.last == o'.last && s'.saved == o'.saved
            && o'.published == AllIds(polls') && s'.polls == AllKeys(polls')
  {
    match step
    case Poll(feed, saves) =>
      var es := Emitted(less, feed, o.last);
      assert es == [] <==> Keys(es) == [];
      AllIdsAppend(polls, es);
      AllKeysAppend(polls, es);
    case Crash(feed, published) =>
      var es := Emitted(less, feed, o.last);
      var out := FirstOf(es, published);
      assert Keys(out) == Keys(es)[..Min(published, |Keys(es)|)];
      AllIdsAppend(polls, out);
      AllKeysAppend(polls, out);
    case _ =>
      assert polls' == polls;
  }

  /** A connector's run is a run of the watermark protocol: same watermark, same checkpoint,
      and the keys of the protocol's polls belong to the entries the connector published. */
  lemma {:induction false} ConnectorIsProtocol<K>(less: (K, K) -> bool, zero: K, steps: seq<Step<K>>)
    ensures var o, s := ConnectorRun(less, zero, steps), RunAll(less, Fresh(zero), steps);
            && s.last == o.last && s.saved == o.saved
            && o.published == AllIds(PollsOf(less, zero, steps))
            && s.polls == AllKeys(PollsOf(less, zero, steps))
  {
    if steps == [] {
    } else {
      var before, step := steps[..|steps| - 1], steps[|steps| - 1];
      ConnectorIsProtocol(less, zero, before);
      StepIsProtocol(less, ConnectorRun(less, zero, before), RunAll(less, Fresh(zero), before), step,
                     PollsOf(less, zero, before), PollsOf(less, zero, steps));
    }
  }

  /** Every entry has the key that belongs to its ID. */
  ghost predicate Keyed<K>(es: seq<Entry<K>>, keyOf: string -> K) {
    forall n :: 0 <= n < |es| ==> es[n].key == keyOf(es[n].id)
  }

  ghost predicate KeyedFeed<K>(step: Step<K>, keyOf: string -> K) {
    step.Poll? || step.Crash? ==> Keyed(step.feed, keyOf)
  }

  ghost predicate KeyedFeeds<K>(steps: seq<Step<K>>, keyOf: string -> K) {
    forall i :: 0 <= i < |steps| ==> KeyedFeed(steps[i], keyOf)
  }

  ghost predicate KeyedPolls<K>(polls: seq<seq<Entry<K>>>, keyOf: string -> K) {
    forall i :: 0 <= i < |polls| ==> Keyed(polls[i], keyOf)
  }

  lemma {:induction false} EmittedKeyed<K>(less: (K, K) -> bool, feed: seq<Entry<K>>, last: K, keyOf: string -> K)
    requires Keyed(feed, keyOf)
    ensures Keyed(Emitted(less, feed, last), keyOf)
  {
    if feed == [] {
    } else {
      EmittedKeyed(less, feed[..|feed| - 1], last, keyOf);
    }
  }

  lemma {:induction false} PollsKeyed<K>(less: (K, K) -> bool, zero: K, steps: seq<Step<K>>, keyOf: string -> K)
    requires KeyedFeeds(steps, keyOf)
    ensures KeyedPolls(PollsOf(less, zero, steps), keyOf)
  {
    if steps == [] {
    } else {
      var before, step := steps[..|steps| - 1], steps[|steps| - 1];
      PollsKeyed(less, zero, before, keyOf);
      assert KeyedFeed(step, keyOf);
      if step.Poll? || step.Crash? {
        EmittedKeyed(less, step.feed, ConnectorRun(less, zero, before).last, keyOf);
      }
    }
  }

  lemma IdHasKey<K>(es: seq<Entry<K>>, id: string, keyOf: string -> K)
    requires id in Ids(es) && Keyed(es, keyOf)
    ensures keyOf(id) in Keys(es)
  {
    var n :| 0 <= n < |es| && Ids(es)[n] == id;
    assert Keys(es)[n] == keyOf(id);
  }

  lemma SharedIdRepeats<K(!new)>(polls: seq<seq<Entry<K>>>, keyOf: string -> K, i: nat, j: nat, id: string)
    requires i < j < |polls|
    requires KeyedPolls(polls, keyOf)
    ensures id in Ids(polls[i]) && id in Ids(polls[j]) ==> Repeats(AllKeys(polls), keyOf(id))
  {
    if id in Ids(polls[i]) && id in Ids(polls[j]) {
      IdHasKey(polls[i], id, keyOf);
      IdHasKey(polls[j], id, keyOf);
      assert AllKeys(polls)[i] == Keys(polls[i]) && AllKeys(polls)[j] == Keys(polls[j]);
    }
  }

  /** A connector whose entries keep their key publishes no ID in two polls, over any feeds,
      failed fetches and restarts, as long as it does not crash, or crashes only between polls
      and saves every checkpoint. */
  lemma ConnectorNeverRepeats<K(!new)>(less: (K, K) -> bool, zero: K, steps: seq<Step<K>>, keyOf: string -> K,
                                       i: nat, j: nat, id: string)
    requires StrictTotal(less) && KeyedFeeds(steps, keyOf) && (NeverCrashes(steps) || SavesEverything(steps))
    requires i < j < |PollsOf(less, zero, steps)|
    ensures !(id in Ids(PollsOf(less, zero, steps)[i]) && id in Ids(PollsOf(less, zero, steps)[j]))
  {
    NoRepeats(less, zero, steps);
    ConnectorIsProtocol(less, zero, steps);
    PollsKeyed(less, zero, steps, keyOf);
    SharedIdRepeats(PollsOf(less, zero, steps), keyOf, i, j, id);
  }

  // ------------------------------------------------------------------
  // The polling loop
  // ------------------------------------------------------------------

  /** A poll has scanned the first n entries: the mark so far, the IDs published and how many. */
  ghost predicate Scanned<K>(less: (K, K) -> bool, feed: seq<Entry<K>>, n: nat, last: K,
                             mark: K, ids: seq<string>, count: nat)
  {
    && n <= |feed|
    && mark == Mark(less, feed[..n], last)
    && ids == Ids(Emitted(less, feed[..n], last))
    && count == |Emitted(less, feed[..n], last)|
  }

  /** One more entry of the feed. */
  lemma ScanNext<K>(less: (K, K) -> bool, feed: seq<Entry<K>>, n: nat, last: K,
                    mark: K, ids: seq<string>, count: nat, e: Entry<K>)
    requires Scanned(less, feed, n, last, mark, ids, count) && n < |feed| && feed[n] == e
    ensures if less(last, e.key) && e.accepted
            then Scanned(less, feed, n + 1, last, if less(mark, e.key) then e.key else mark, ids + [e.id], count + 1)
            else Scanned(less, feed, n + 1, last, mark, ids, count)
  {
    assert feed[..n + 1][..n] == feed[..n];
    var es := Emitted(less, feed[..n], last);
    assert Ids(es + [e]) == Ids(es) + [e.id];
  }

  /** All of it. */
  lemma ScanEnds<K>(less: (K, K) -> bool, feed: seq<Entry<K>>, o: Outcome<K>,
                    mark: K, ids: seq<string>, count: nat, saves: bool)
    requires Scanned(less, feed, |feed|, o.last, mark, ids, count)
    ensures Polled(less, o, Some(feed), saves)
            == Outcome(mark, if count > 0 && saves then mark else o.saved, o.published + ids)
  {
    assert feed[..|feed|] == feed;
  }

  // ------------------------------------------------------------------
  // usgs-earthquakes: an integer watermark in milliseconds
  // ------------------------------------------------------------------

  datatype Feature = Feature(id: string, timeMs: int, mag: Option<real>, coordinates: seq<real>)

  function QuakeEntry(f: Feature, minMagnitude: real): Entry<int> {
    Entry(f.timeMs, f.id, !(f.mag.Some? && f.mag.value < minMagnitude) && |f.coordinates| >= 2)
  }

  function QuakeEntries(fs: seq<Feature>, minMagnitude: real): seq<Entry<int>> {
    seq(|fs|, i requires 0 <= i < |fs| => QuakeEntry(fs[i], minMagnitude))
  }

  /** A feature is published, under its ID and time, if and only if it is later than the
      watermark, has no magnitude or one that is large enough, and has a position. */
  lemma QuakeEmittedIff(fs: seq<Feature>, minMagnitude: real, last: int, n: nat)
    requires n < |fs|
    ensures var f, feed := fs[n], QuakeEntries(fs, minMagnitude);
            Emitted(LessInt, feed[..n + 1], last)
            == Emitted(LessInt, feed[..n], last)
               + if f.timeMs > last && (f.mag.None? || f.mag.value >= minMagnitude) && |f.coordinates| >= 2
                 then [Entry(f.timeMs, f.id, true)] else []
  {
    var feed := QuakeEntries(fs, minMagnitude);
    assert feed[..n + 1][..n] == feed[..n];
  }

  class Earthquakes {
    const minMagnitude: real
    var lastSeenMs: int
    var saved: int
    var published: seq<string>

    ghost function View(): Outcome<int>
      reads this
    {
      Outcome(lastSeenMs, saved, published)
    }

    /** Run up to its first poll: resume from the checkpoint, or from 0 when it cannot be read. */
    constructor (minMagnitude: real, saved: int, loads: bool)
      ensures this.minMagnitude == minMagnitude
      ensures View() == Outcome(if loads then saved else 0, saved, [])
    {
      this.minMagnitude, this.saved := minMagnitude, saved;
      lastSeenMs := if loads then saved else 0;
      published := [];
    }

    method Poll(features: Option<seq<Feature>>, saves: bool)
      modifies this
      ensures View() == Polled(LessInt, old(View()),
                               if features.None? then None else Some(QuakeEntries(features.value, minMagnitude)), saves)
    {
      if features.None? {
        return;
      }
      ghost var feed := QuakeEntries(features.value, minMagnitude);
      var emitted := 0;
      ghost var ids: seq<string> := [];
      var maxSeen := lastSeenMs;
      var i := 0;
      while i < |features.value|
        invariant 0 <= i <= |features.value|
        invariant Scanned(LessInt, feed, i, lastSeenMs, maxSeen, ids, emitted)
        invariant published == old(published) + ids
        invariant lastSeenMs == old(lastSeenMs) && saved == old(saved)
      {
        var f := features.value[i];
        ScanNext(LessInt, feed, i, lastSeenMs, maxSeen, ids, emitted, QuakeEntry(f, minMagnitude));
        if f.timeMs <= lastSeenMs {
        } else if f.mag.Some? && f.mag.value < minMagnitude {
        } else if |f.coordinates| < 2 {
        } else {
          published := published + [f.id];
          ids := ids + [f.id];
          emitted := emitted + 1;
          if f.timeMs > maxSeen {
            maxSeen := f.timeMs;
          }
        }
        i := i + 1;
      }
      ScanEnds(LessInt, feed, old(View()), maxSeen, ids, emitted, saves);
      if emitted > 0 && saves {
        saved := maxSeen;
      }
      lastSeenMs := maxSeen;
    }
  }

  // ------------------------------------------------------------------
  // openaq: an ISO-8601 string watermark
  // ------------------------------------------------------------------

  /** `parses` is whether time.Parse accepts the chosen datetime. */
  datatype Measurement = Measurement(sensorId: string, datetimeTo: string, datetimeFrom: string, parses: bool)

  function AirEntry(m: Measurement): Entry<string> {
    Entry(if m.datetimeTo == "" then m.datetimeFrom else m.datetimeTo, m.sensorId, m.parses)
  }

  function AirEntries(ms: seq<Measurement>): seq<Entry<string>> {
    seq(|ms|, i requires 0 <= i < |ms| => AirEntry(ms[i]))
  }

  /** A measurement is published, under its sensor ID, if and only if its end time, or its start
      time when it has no end, is later than the watermark and parses. */
  lemma AirEmittedIff(ms: seq<Measurement>, last: string, n: nat)
    requires n < |ms|
    ensures var m, feed := ms[n], AirEntries(ms);
            var time := if m.datetimeTo != "" then m.datetimeTo else m.datetimeFrom;
            Emitted(LessString, feed[..n + 1], last)
            == Emitted(LessString, feed[..n], last)
               + if StringOrder.Less(last, time) && m.parses then [Entry(time, m.sensorId, true)] else []
  {
    var feed := AirEntries(ms);
    assert feed[..n + 1][..n] == feed[..n];
  }

  class AirQuality {
    var lastSeen: string
    var saved: string
    var published: seq<string>

    ghost function View(): Outcome<string>
      reads this
    {
      Outcome(lastSeen, saved, published)
    }

    constructor (saved: string, loads: bool)
      ensures View() == Outcome(if loads then saved else "", saved, [])
    {
      this.saved := saved;
      lastSeen := if loads then saved else "";
      published := [];
    }

    method PollOnce(results: Option<seq<Measurement>>, saves: bool)
      modifies this
      ensures View() == Polled(LessString, old(View()),
                               if results.None? then None else Some(AirEntries(results.value)), saves)
    {
      if results.None? {
        return;
      }
      ghost var feed := AirEntries(results.value);
      var emitted := 0;
      ghost var ids: seq<string> := [];
      var maxSeen := lastSeen;
      var i := 0;
      while i < |results.value|
        invariant 0 <= i <= |results.value|
        invariant Scanned(LessString, feed, i, lastSeen, maxSeen, ids, emitted)
        invariant published == old(published) + ids
        invariant lastSeen == old(lastSeen) && saved == old(saved)
      {
        var m := results.value[i];
        var dtStr := m.datetimeTo;
        if dtStr == "" {
          dtStr := m.datetimeFrom;
        }
        assert feed[i] == Entry(dtStr, m.sensorId, m.parses);
        ScanNext(LessString, feed, i, lastSeen, maxSeen, ids, emitted, Entry(dtStr, m.sensorId, m.parses));
        var above := StringOrder.Less(lastSeen, dtStr);
        if above && m.parses {
          published := published + [m.sensorId];
          ids := ids + [m.sensorId];
          emitted := emitted + 1;
          if StringOrder.Less(maxSeen, dtStr) {
            maxSeen := dtStr;
          }
        }
        i := i + 1;
      }
      ScanEnds(LessString, feed, old(View()), maxSeen, ids, emitted, saves);
      if emitted > 0 && saves {
        saved := maxSeen;
      }
      lastSeen := maxSeen;
    }
  }

  // ------------------------------------------------------------------
  // nasa-firms: a composite string key
  // ------------------------------------------------------------------

  /** One CSV row, already looked up by column name; `bad` is a row the reader rejects. */
  datatype Row = Row(date: string, time: string, lat: string, lng: string, sat: string, bad: bool)

  /** FIRMS rows have no ID; this key stands in for one. */
  function FireKey(r: Row): string { r.date + "|" + r.time + "|" + r.lat + "|" + r.lng + "|" + r.sat }

  function FireEntry(r: Row): Entry<string> { Entry(FireKey(r), FireKey(r), true) }

  /** How many rows are read before the first rejected one. */
  function Readable(rows: seq<Row>): (n: nat)
    ensures n <= |rows|
  {
    if rows == [] || rows[0].bad then 0 else 1 + Readable(rows[1..])
  }

  function FireEntries(rows: seq<Row>): seq<Entry<string>> {
    seq(|rows|, i requires 0 <= i < |rows| => FireEntry(rows[i]))
  }

  /** The rows before the first rejected one; nothing when there are no rows at all. */
  function FireFeed(rows: Option<seq<Row>>): Option<seq<Entry<string>>> {
    if rows.None? then None else Some(FireEntries(rows.value[..Readable(rows.value)]))
  }

  lemma {:induction false} ReadableStopsAtBad(rows: seq<Row>)
    ensures forall i :: 0 <= i < Readable(rows) ==> !rows[i].bad
    ensures Readable(rows) < |rows| ==> rows[Readable(rows)].bad
  {
    if rows != [] && !rows[0].bad {
      ReadableStopsAtBad(rows[1..]);
    }
  }

  /** A detection is published, under date|time|latitude|longitude|satellite, if and only if that
      string is above the watermark and no row up to it was rejected. */
  lemma FireEmittedIff(rows: seq<Row>, last: string, n: nat)
    requires n < |rows|
    ensures n < Readable(rows) <==> forall i :: 0 <= i <= n ==> !rows[i].bad
    ensures var r, feed := rows[n], FireEntries(rows);
            var key := r.date + "|" + r.time + "|" + r.lat + "|" + r.lng + "|" + r.sat;
            Emitted(LessString, feed[..n + 1], last)
            == Emitted(LessString, feed[..n], last)
               + if StringOrder.Less(last, key) then [Entry(key, key, true)] else []
  {
    var feed := FireEntries(rows);
    assert feed[..n + 1][..n] == feed[..n];
    ReadableStopsAtBad(rows);
  }

  class Fires {
    var lastKey: string
    var saved: string
    var published: seq<string>

    ghost function View(): Outcome<string>
      reads this
    {
      Outcome(lastKey, saved, published)
    }

    constructor (saved: string, loads: bool)
      ensures View() == Outcome(if loads then saved else "", saved, [])
    {
      this.saved := saved;
      lastKey := if loads then saved else "";
      published := [];
    }

    /** `rows` is None when the fetch or the header fails. */
    method PollOnce(rows: Option<seq<Row>>, saves: bool)
      modifies this
      ensures View() == Polled(LessString, old(View()), FireFeed(rows), saves)
    {
      if rows.None? {
        return;
      }
      ghost var readable := Readable(rows.value);
      ghost var feed := FireEntries(rows.value[..readable]);
      ReadableStopsAtBad(rows.value);
      var emitted := 0;
      ghost var ids: seq<string> := [];
      var maxKey := lastKey;
      var i := 0;
      while i < |rows.value| && !rows.value[i].bad
        invariant 0 <= i <= readable
        invariant Scanned(LessString, feed, i, lastKey, maxKey, ids, emitted)
        invariant published == old(published) + ids
        invariant lastKey == old(lastKey) && saved == old(saved)
      {
        var recKey := FireKey(rows.value[i]);
        assert feed[i] == Entry(recKey, recKey, true);
        ScanNext(LessString, feed, i, lastKey, maxKey, ids, emitted, Entry(recKey, recKey, true));
        var above := StringOrder.Less(lastKey, recKey);
        if above {
          published := published + [recKey];
          ids := ids + [recKey];
          emitted := emitted + 1;
          if StringOrder.Less(maxKey, recKey) {
            maxKey := recKey;
          }
        }
        i := i + 1;
      }
      assert i == readable;
      ScanEnds(LessString, feed, old(View()), maxKey, ids, emitted, saves);
      if emitted > 0 && saves {
        saved := maxKey;
      }
      lastKey := maxKey;
    }
  }

  // ------------------------------------------------------------------
  // No repeats, connector by connector
  // ------------------------------------------------------------------

  /** Polls of a running nasa-firms connector, each with the outcome of its checkpoint write. */
  function FirePolls(feeds: seq<seq<Row>>, saves: seq<bool>): seq<Step<string>>
    requires |saves| == |feeds|
  {
    seq(|feeds|, i requires 0 <= i < |feeds| => Poll(FireEntries(feeds[i][..Readable(feeds[i])]), saves[i]))
  }

  /** A detection's key is its ID, so nasa-firms never publishes a detection in two polls. */
  lemma FiresNeverRepeat(feeds: seq<seq<Row>>, saves: seq<bool>, i: nat, j: nat, id: string)
    requires |saves| == |feeds|
    requires i < j < |PollsOf(LessString, "", FirePolls(feeds, saves))|
    ensures var polls := PollsOf(LessString, "", FirePolls(feeds, saves));
            !(id in Ids(polls[i]) && id in Ids(polls[j]))
  {
    StringsAreOrdered();
    ConnectorNeverRepeats(LessString, "", FirePolls(feeds, saves), id => id, i, j, id);
  }

  function QuakePolls(minMagnitude: real, feeds: seq<seq<Feature>>, saves: seq<bool>): seq<Step<int>>
    requires |saves| == |feeds|
  {
    seq(|feeds|, i requires 0 <= i < |feeds| => Poll(QuakeEntries(feeds[i], minMagnitude), saves[i]))
  }

  /** usgs-earthquakes publishes no event in two polls, as long as no event's time is revised. */
  lemma QuakesNeverRepeat(minMagnitude: real, feeds: seq<seq<Feature>>, saves: seq<bool>, timeOf: string -> int,
                          i: nat, j: nat, id: string)
    requires |saves| == |feeds|
    requires forall n, f :: 0 <= n < |feeds| && f in feeds[n] ==> f.timeMs == timeOf(f.id)
    requires i < j < |PollsOf(LessInt, 0, QuakePolls(minMagnitude, feeds, saves))|
    ensures var polls := PollsOf(LessInt, 0, QuakePolls(minMagnitude, feeds, saves));
            !(id in Ids(polls[i]) && id in Ids(polls[j]))
  {
    IntsAreOrdered();
    var steps := QuakePolls(minMagnitude, feeds, saves);
    forall n | 0 <= n < |steps|
      ensures KeyedFeed(steps[n], timeOf)
    {
      assert forall m :: 0 <= m < |feeds[n]| ==> feeds[n][m] in feeds[n];
    }
    ConnectorNeverRepeats(LessInt, 0, steps, timeOf, i, j, id);
  }
}
