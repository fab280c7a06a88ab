/** The seen-map of connectors/noaaweather/connector.go: dedupe by (ID, sent), and the trim
    loop of saveSeen, whose exit test moves while it deletes. */
module Noaa {
  import opened Common

  const CAP: nat := 5000
  const TARGET: nat := 4500

  datatype Alert = Alert(id: string, sent: string, status: string, severity: string)

  datatype Config = Config(severityMin: string, skipTest: bool)

  /** Position in the severity scale; None for a name outside it. */
  function SeverityOrder(s: string): Option<int> {
    if s == "" then Some(-1)
    else if s == "Unknown" then Some(0)
    else if s == "Minor" then Some(1)
    else if s == "Moderate" then Some(2)
    else if s == "Severe" then Some(3)
    else if s == "Extreme" then Some(4)
    else None
  }

  /** A minimum outside the scale counts as 0, Go's zero value. */
  function MinOrder(cfg: Config): int {
    if SeverityOrder(cfg.severityMin).Some? then SeverityOrder(cfg.severityMin).value else 0
  }

  /** Test messages and known severities below the minimum are filtered out. */
  predicate Passes(cfg: Config, a: Alert) {
    && !(cfg.skipTest && a.status == "Test")
    && !(SeverityOrder(a.severity).Some? && SeverityOrder(a.severity).value < MinOrder(cfg))
  }

  /** The filter by minimum severity. A record with a severity outside the scale always passes;
      a minimum outside it lets everything but an empty severity through. */
  lemma FilterTable(cfg: Config, a: Alert)
    ensures cfg.skipTest && a.status == "Test" ==> !Passes(cfg, a)
    ensures !(cfg.skipTest && a.status == "Test") ==>
              var s, min := a.severity, cfg.severityMin;
              Passes(cfg, a)
              <==>
              if min == "" then true
              else if min == "Minor" then s != "" && s != "Unknown"
              else if min == "Moderate" then s != "" && s != "Unknown" && s != "Minor"
              else if min == "Severe" then s != "" && s != "Unknown" && s != "Minor" && s != "Moderate"
              else if min == "Extreme" then
                s != "" && s != "Unknown" && s != "Minor" && s != "Moderate" && s != "Severe"
              else s != ""
  {
  }

  /** The code's dedupe test. */
  predicate Duplicate(seen: map<string, string>, a: Alert) {
    a.id in seen && seen[a.id] == a.sent && a.sent != ""
  }

  datatype Polled = Polled(seen: map<string, string>, published: seq<Alert>)

  function PollFrom(cfg: Config, seen: map<string, string>, feed: seq<Alert>): Polled {
    if feed == [] then Polled(seen, [])
    else
      var p := PollFrom(cfg, seen, feed[..|feed| - 1]);
      var a := feed[|feed| - 1];
      if Passes(cfg, a) && !Duplicate(p.seen, a) then Polled(p.seen[a.id := a.sent], p.published + [a]) else p
  }

  lemma {:induction false} NothingPublished(cfg: Config, seen: map<string, string>, feed: seq<Alert>)
    requires PollFrom(cfg, seen, feed).published == []
    ensures PollFrom(cfg, seen, feed).seen == seen
  {
    if feed == [] {
    } else {
      NothingPublished(cfg, seen, feed[..|feed| - 1]);
    }
  }

  lemma PollNext(cfg: Config, seen: map<string, string>, feed: seq<Alert>, n: nat)
    requires n < |feed|
    ensures var p, a := PollFrom(cfg, seen, feed[..n]), feed[n];
            PollFrom(cfg, seen, feed[..n + 1])
            == if Passes(cfg, a) && !Duplicate(p.seen, a) then Polled(p.seen[a.id := a.sent], p.published + [a]) else p
  {
    assert feed[..n + 1][..n] == feed[..n];
  }

  /** What a save leaves of n entries. */
  function Remaining(n: nat): nat {
    if n > CAP then (n + TARGET) / 2 else n
  }

  ghost predicate TrimmedFrom(before: map<string, string>, after: map<string, string>) {
    && |after| == Remaining(|before|)
    && forall k <- after :: k in before && after[k] == before[k]
  }

  /** The connector's in-memory map and the stored checkpoint. */
  datatype Memory = Memory(seen: map<string, string>, checkpoint: map<string, string>)

  /** A poll, whose fetch may fail (no feed) and whose save may fail; or a restart, after a stop
      or a crash anywhere, that reads the checkpoint or fails to. */
  datatype Event =
    | Polls(feed: Option<seq<Alert>>, saves: bool)
    | Restarts(loads: bool)

  /** One event, whichever entries a trim deletes. */
  ghost predicate Takes(cfg: Config, s: Memory, e: Event, s': Memory) {
    match e
    case Polls(None, _) => s' == s
    case Polls(Some(feed), saves) =>
      var p := PollFrom(cfg, s.seen, feed);
      if p.published == [] then s' == s
      else TrimmedFrom(p.seen, s'.seen) && s'.checkpoint == if saves then s'.seen else s.checkpoint
    case Restarts(loads) => s' == Memory(if loads then s.checkpoint else map[], s.checkpoint)
  }

  lemma DropOne(m: map<string, string>, k: string)
    requires k in m
    ensures |m - {k}| == |m| - 1
  {
    assert (m - {k}).Keys == m.Keys - {k};
  }

  class SeenAlerts {
    var seen: map<string, string>
    var checkpoint: map<string, string>
    var published: seq<Alert>

    ghost function View(): Memory
      reads this
    {
      Memory(seen, checkpoint)
    }

    constructor (stored: map<string, string>, loads: bool)
      ensures View() == Memory(if loads then stored else map[], stored) && published == []
    {
      seen, checkpoint, published := if loads then stored else map[], stored, [];
    }

    /** The loop of pollOnce: publish and remember what is not filtered out and not a duplicate. */
    method PublishNew(cfg: Config, feed: seq<Alert>) returns (emitted: nat)
      modifies this`seen, this`published
      ensures var p := PollFrom(cfg, old(seen), feed);
              seen == p.seen && published == old(published) + p.published && emitted == |p.published|
    {
      var min := MinOrder(cfg);
      emitted := 0;
      ghost var out: seq<Alert> := [];
      for i := 0 to |feed|
        invariant Polled(seen, out) == PollFrom(cfg, old(seen), feed[..i])
        invariant published == old(published) + out && emitted == |out|
      {
        var a := feed[i];
        PollNext(cfg, old(seen), feed, i);
        var order := SeverityOrder(a.severity);
        if cfg.skipTest && a.status == "Test" {
        } else if order.Some? && order.value < min {
        } else if a.id in seen && seen[a.id] == a.sent && a.sent != "" {
        } else {
          published := published + [a];
          out := out + [a];
          seen := seen[a.id := a.sent];
          emitted := emitted + 1;
        }
      }
      assert feed[..|feed|] == feed;
    }

    /** `feed` is None when the fetch or the decoding failed. */
    method PollOnce(cfg: Config, feed: Option<seq<Alert>>, saves: bool)
      modifies this
      ensures Takes(cfg, old(View()), Polls(feed, saves), View())
      ensures published == old(published) + if feed.None? then [] else PollFrom(cfg, old(seen), feed.value).published
      ensures published == old(published) || !saves ==> checkpoint == old(checkpoint)
      ensures published != old(published) && saves ==> checkpoint == seen
      ensures published == old(published) ==> seen == old(seen)
    {
      if feed.None? {
        return;
      }
      var emitted := PublishNew(cfg, feed.value);
      if emitted > 0 {
        SaveSeen(saves);
      } else {
        NothingPublished(cfg, old(seen), feed.value);
      }
    }

    /** Trim the map in place, then store it; the store may fail. */
    method SaveSeen(saves: bool)
      modifies this`seen, this`checkpoint
      ensures TrimmedFrom(old(seen), seen) && checkpoint == if saves then seen else old(checkpoint)
      ensures |seen| == if |old(seen)| > 5000 then (|old(seen)| + 4500) / 2 else |old(seen)|
    {
      if |seen| > CAP {
        var i := 0;
        var todo := seen.Keys;
        while todo != {}
          invariant todo <= seen.Keys
          invariant forall k <- seen :: k in old(seen) && seen[k] == old(seen)[k]
          invariant |seen| == |old(seen)| - i
          invariant |todo| == |seen|
          invariant i == 0 || 2 * i < |old(seen)| - TARGET
          invariant checkpoint == old(checkpoint)
          decreases |todo|
        {
          var k :| k in todo;
          todo := todo - {k};
          DropOne(seen, k);
          seen := seen - {k};
          i := i + 1;
          if i >= |seen| - TARGET {
            break;
          }
        }
      }
      if saves {
        checkpoint := seen;
      }
    }
  }

  // ------------------------------------------------------------------
  // The cap
  // ------------------------------------------------------------------

  /** The promised cap of 5000 entries holds after a save exactly when at most 5501 went in;
      beyond that the loop stops half-way: 5502 entries leave 5001. */
  lemma CapHoldsIff(before: map<string, string>, after: map<string, string>)
    requires TrimmedFrom(before, after)
    ensures |after| <= 5000 <==> |before| <= 5501
  {
  }

  /** A poll forgets no ID, and adds at most one entry per published alert. */
  lemma {:induction false} PollGrowth(cfg: Config, seen: map<string, string>, feed: seq<Alert>)
    ensures |seen| <= |PollFrom(cfg, seen, feed).seen| <= |seen| + |PollFrom(cfg, seen, feed).published|
    ensures seen.Keys <= PollFrom(cfg, seen, feed).seen.Keys
  {
    if feed == [] {
    } else {
      var p := PollFrom(cfg, seen, feed[..|feed| - 1]);
      var a := feed[|feed| - 1];
      PollGrowth(cfg, seen, feed[..|feed| - 1]);
      assert p.seen[a.id := a.sent].Keys == p.seen.Keys + {a.id};
    }
  }

  ghost predicate TakesAt(cfg: Config, events: seq<Event>, states: seq<Memory>, i: nat)
    requires i < |events| && |states| == |events| + 1
  {
    Takes(cfg, states[i], events[i], states[i + 1])
  }

  /** states[i] is the memory after i events of a run that begins with no checkpoint. */
  ghost predicate SeenRun(cfg: Config, events: seq<Event>, states: seq<Memory>) {
    && |states| == |events| + 1 && states[0] == Memory(map[], map[])
    && forall i :: 0 <= i < |events| ==> TakesAt(cfg, events, states, i)
  }

  /** A poll brings at most g IDs that were not remembered. */
  predicate AddsAtMost(cfg: Config, s: Memory, e: Event, g: nat) {
    e.Polls? && e.feed.Some? ==> |PollFrom(cfg, s.seen, e.feed.value).seen| <= |s.seen| + g
  }

  /** With at most g new IDs in a poll, neither the map nor the checkpoint ever exceeds
      max(5000, 4500 + g), over any run of polls, failed saves and restarts. */
  lemma {:induction false} SeenMapBound(cfg: Config, events: seq<Event>, states: seq<Memory>, g: nat, n: nat)
    requires SeenRun(cfg, events, states) && n < |states|
    requires forall i :: 0 <= i < |events| ==> AddsAtMost(cfg, states[i], events[i], g)
    ensures |states[n].seen| <= Max(5000, 4500 + g) && |states[n].checkpoint| <= Max(5000, 4500 + g)
  {
    if n == 0 {
    } else {
      SeenMapBound(cfg, events, states, g, n - 1);
      assert TakesAt(cfg, events, states, n - 1);
      assert AddsAtMost(cfg, states[n - 1], events[n - 1], g);
    }
  }

  // ------------------------------------------------------------------
  // The cap is really exceeded
  // ------------------------------------------------------------------

  predicate Mentions(feed: seq<Alert>, id: string) { exists i :: 0 <= i < |feed| && feed[i].id == id }

  predicate DistinctIds(feed: seq<Alert>) {
    forall i, j :: 0 <= i < j < |feed| ==> feed[i].id != feed[j].id
  }

  /** Alerts with different IDs that the filter lets through are all remembered and published. */
  lemma {:induction false} NewAlertsFill(cfg: Config, feed: seq<Alert>)
    requires DistinctIds(feed) && forall a <- feed :: Passes(cfg, a)
    ensures var p := PollFrom(cfg, map[], feed);
            |p.seen| == |p.published| == |feed| && forall id <- p.seen :: Mentions(feed, id)
  {
    if feed == [] {
    } else {
      var n := |feed| - 1;
      NewAlertsFill(cfg, feed[..n]);
      var p := PollFrom(cfg, map[], feed[..n]);
      assert feed[n] in feed;
      assert feed[n].id !in p.seen;
      assert Mentions(feed, feed[n].id);
      forall id | Mentions(feed[..n], id)
        ensures Mentions(feed, id)
      {
        var i :| 0 <= i < n && feed[..n][i].id == id;
        assert feed[i].id == id;
      }
    }
  }

  function Name(k: nat): string { seq(k, _ => 'x') }

  function Nameless(k: nat): Alert { Alert(Name(k), "t", "Actual", "unlisted") }

  /** n alerts with different IDs that every filter lets through. */
  function Burst(n: nat): seq<Alert> { seq(n, k requires 0 <= k < n => Nameless(k)) }

  lemma NamelessPasses(cfg: Config, k: nat)
    ensures Passes(cfg, Nameless(k))
  {
  }

  lemma BurstFills(cfg: Config, n: nat)
    ensures |PollFrom(cfg, map[], Burst(n)).seen| == |PollFrom(cfg, map[], Burst(n)).published| == n
  {
    forall a <- Burst(n)
      ensures Passes(cfg, a)
    {
      var k :| 0 <= k < n && Burst(n)[k] == a;
      NamelessPasses(cfg, k);
    }
    forall i, j | 0 <= i < j < n
      ensures Burst(n)[i].id != Burst(n)[j].id
    {
      assert |Burst(n)[i].id| == i && |Burst(n)[j].id| == j;
    }
    NewAlertsFill(cfg, Burst(n));
  }

  /** A map has sub-maps of every smaller size. */
  lemma SubMap(m: map<string, string>, n: nat) returns (sub: map<string, string>)
    requires n <= |m|
    ensures |sub| == n && forall k <- sub :: k in m && sub[k] == m[k]
    decreases |m|
  {
    if n == |m| {
      sub := m;
    } else {
      var k :| k in m;
      DropOne(m, k);
      sub := SubMap(m - {k}, n);
    }
  }

  /** A first poll that brings n new IDs saves exactly what a trim leaves of n. */
  lemma FirstPollLeaves(cfg: Config, n: nat)
    requires n > 0
    ensures exists states: seq<Memory> :: SeenRun(cfg, [Polls(Some(Burst(n)), true)], states)
                                          && |states[1].checkpoint| == Remaining(n)
  {
    BurstFills(cfg, n);
    var e := Polls(Some(Burst(n)), true);
    var p := PollFrom(cfg, map[], Burst(n));
    var sub := SubMap(p.seen, Remaining(n));
    var states := [Memory(map[], map[]), Memory(sub, sub)];
    assert Takes(cfg, states[0], e, states[1]);
    assert SeenRun(cfg, [e], states);
  }

  /** So a first poll of 5502 IDs leaves 5001 in the checkpoint, over the cap. */
  lemma CapCanBeExceeded(cfg: Config)
    ensures exists feed: seq<Alert>, states: seq<Memory> ::
              SeenRun(cfg, [Polls(Some(feed), true)], states) && |states[1].checkpoint| == 5001 > CAP
  {
    FirstPollLeaves(cfg, 5502);
  }

  // ------------------------------------------------------------------
  // When an alert is emitted again
  // ------------------------------------------------------------------

  function Remembered(seen: map<string, string>, id: string): Option<string> {
    if id in seen then Some(seen[id]) else None
  }

  /** The `sent` of the latest alert of this ID that passed the filter; `before` if there is none. */
  function Latest(cfg: Config, before: Option<string>, alerts: seq<Alert>, id: string): Option<string> {
    if alerts == [] then before
    else
      var a := alerts[|alerts| - 1];
      if a.id == id && Passes(cfg, a) then Some(a.sent) else Latest(cfg, before, alerts[..|alerts| - 1], id)
  }

  /** News: it passes the filter, and its `sent` is empty or not the latest one. */
  predicate IsNews(cfg: Config, latest: Option<string>, a: Alert) {
    Passes(cfg, a) && (a.sent == "" || latest != Some(a.sent))
  }

  /** During a poll the map remembers, for each ID, the latest passing `sent`, published or not. */
  lemma {:induction false} RemembersLatest(cfg: Config, seen: map<string, string>, feed: seq<Alert>, id: string)
    ensures Remembered(PollFrom(cfg, seen, feed).seen, id) == Latest(cfg, Remembered(seen, id), feed, id)
  {
    if feed == [] {
    } else {
      RemembersLatest(cfg, seen, feed[..|feed| - 1], id);
    }
  }

  lemma {:induction false} LatestAppend(cfg: Config, before: Option<string>, a: seq<Alert>, b: seq<Alert>, id: string)
    ensures Latest(cfg, before, a + b, id) == Latest(cfg, Latest(cfg, before, a, id), b, id)
  {
    if b == [] {
      assert a + b == a;
    } else {
      assert (a + b)[..|a + b| - 1] == a + b[..|b| - 1];
      LatestAppend(cfg, before, a, b[..|b| - 1], id);
    }
  }

  predicate HasFeed(e: Event) { e.Polls? && e.feed.Some? }

  /** All alerts of the polls from event i up to event j. */
  function Feeds(events: seq<Event>, i: nat, j: nat): seq<Alert>
    requires i <= j <= |events|
  {
    if i == j then []
    else Feeds(events, i, j - 1) + if HasFeed(events[j - 1]) then events[j - 1].feed.value else []
  }

  /** From event i to event j the connector ran without a restart and no trim deleted the ID. */
  ghost predicate Untrimmed(events: seq<Event>, states: seq<Memory>, id: string, i: nat, j: nat)
    requires |states| == |events| + 1 && i <= j < |states|
  {
    && (forall k :: i <= k < j ==> events[k].Polls?)
    && (forall k :: i <= k <= j ==> id in states[k].seen)
  }

  lemma PollRemembers(cfg: Config, s: Memory, e: Event, s': Memory, id: string)
    requires Takes(cfg, s, e, s') && e.Polls? && id in s'.seen
    ensures Remembered(s'.seen, id)
            == Latest(cfg, Remembered(s.seen, id), if HasFeed(e) then e.feed.value else [], id)
  {
    if HasFeed(e) {
      var p := PollFrom(cfg, s.seen, e.feed.value);
      RemembersLatest(cfg, s.seen, e.feed.value, id);
      if p.published == [] {
        NothingPublished(cfg, s.seen, e.feed.value);
      }
    }
  }

  /** An ID that no trim has deleted is remembered with its latest passing `sent` of the run. */
  lemma {:induction false} KeptIsLatest(cfg: Config, events: seq<Event>, states: seq<Memory>,
                                        id: string, i: nat, j: nat)
    requires SeenRun(cfg, events, states) && i <= j < |states| && Untrimmed(events, states, id, i, j)
    ensures Remembered(states[j].seen, id) == Latest(cfg, Remembered(states[i].seen, id), Feeds(events, i, j), id)
    decreases j
  {
    if i == j {
    } else {
      KeptIsLatest(cfg, events, states, id, i, j - 1);
      assert TakesAt(cfg, events, states, j - 1);
      var feed := if HasFeed(events[j - 1]) then events[j - 1].feed.value else [];
      PollRemembers(cfg, states[j - 1], events[j - 1], states[j], id);
      LatestAppend(cfg, Remembered(states[i].seen, id), Feeds(events, i, j - 1), feed, id);
    }
  }

  /** Over a run: while no trim deletes its ID, the n-th alert of poll j is published if and only
      if it is news against everything polled since event i, this poll's earlier alerts included. */
  lemma ReemitsIff(cfg: Config, events: seq<Event>, states: seq<Memory>, i: nat, j: nat, n: nat)
    requires SeenRun(cfg, events, states) && i <= j < |events|
    requires HasFeed(events[j]) && n < |events[j].feed.value|
    requires Untrimmed(events, states, events[j].feed.value[n].id, i, j)
    ensures var feed, seen := events[j].feed.value, states[j].seen;
            var a := feed[n];
            PollFrom(cfg, seen, feed[..n + 1]).published
            == PollFrom(cfg, seen, feed[..n]).published
               + if IsNews(cfg, Latest(cfg, Some(states[i].seen[a.id]), Feeds(events, i, j) + feed[..n], a.id), a)
                 then [a] else []
  {
    var feed, seen := events[j].feed.value, states[j].seen;
    var a := feed[n];
    assert feed[..n + 1][..n] == feed[..n];
    KeptIsLatest(cfg, events, states, a.id, i, j);
    RemembersLatest(cfg, seen, feed[..n], a.id);
    LatestAppend(cfg, Remembered(states[i].seen, a.id), Feeds(events, i, j), feed[..n], a.id);
  }

  predicate Publishes(cfg: Config, s: Memory, e: Event, id: string) {
    HasFeed(e) && exists a <- PollFrom(cfg, s.seen, e.feed.value).published :: a.id == id
  }

  predicate OnlySent(alerts: seq<Alert>, id: string, sent: string) {
    forall a <- alerts :: a.id == id ==> a.sent == sent
  }

  lemma {:induction false} QuietFeed(cfg: Config, seen: map<string, string>, feed: seq<Alert>, id: string, sent: string)
    requires Remembered(seen, id) == Some(sent) && sent != "" && OnlySent(feed, id, sent)
    ensures Remembered(PollFrom(cfg, seen, feed).seen, id) == Some(sent)
    ensures forall a <- PollFrom(cfg, seen, feed).published :: a.id != id
  {
    if feed == [] {
    } else {
      assert feed[|feed| - 1] in feed;
      QuietFeed(cfg, seen, feed[..|feed| - 1], id, sent);
    }
  }

  /** A remembered alert that keeps its non-empty `sent` is published by no poll of the run until
      a trim deletes it or the connector restarts, and stays remembered. */
  lemma {:induction false} QuietWhileUnchanged(cfg: Config, events: seq<Event>, states: seq<Memory>,
                                               id: string, sent: string, i: nat, j: nat)
    requires SeenRun(cfg, events, states) && i <= j < |states| && Untrimmed(events, states, id, i, j)
    requires states[i].seen[id] == sent != "" && OnlySent(Feeds(events, i, j), id, sent)
    ensures states[j].seen[id] == sent
    ensures forall k :: i <= k < j ==> !Publishes(cfg, states[k], events[k], id)
    decreases j
  {
    if i == j {
    } else {
      assert OnlySent(Feeds(events, i, j - 1), id, sent);
      QuietWhileUnchanged(cfg, events, states, id, sent, i, j - 1);
      assert TakesAt(cfg, events, states, j - 1);
      if HasFeed(events[j - 1]) {
        var feed := events[j - 1].feed.value;
        assert OnlySent(feed, id, sent);
        QuietFeed(cfg, states[j - 1].seen, feed, id, sent);
      }
    }
  }

  lemma {:induction false} EmptySentPublished(cfg: Config, seen: map<string, string>, feed: seq<Alert>, a: Alert)
    requires a in feed && a.sent == "" && Passes(cfg, a)
    ensures a in PollFrom(cfg, seen, feed).published
  {
    var last := feed[|feed| - 1];
    if a == last {
      assert a in PollFrom(cfg, seen, feed[..|feed| - 1]).published + [a];
    } else {
      assert a in feed[..|feed| - 1];
      EmptySentPublished(cfg, seen, feed[..|feed| - 1], a);
    }
  }

  /** An alert with an empty `sent` is published by every poll of a run that brings it, however
      often it was published before. */
  lemma EmptySentRepeats(cfg: Config, events: seq<Event>, states: seq<Memory>, a: Alert)
    requires SeenRun(cfg, events, states) && a.sent == "" && Passes(cfg, a)
    ensures forall k :: 0 <= k < |events| && HasFeed(events[k]) && a in events[k].feed.value ==>
              Publishes(cfg, states[k], events[k], a.id)
  {
    forall k | 0 <= k < |events| && HasFeed(events[k]) && a in events[k].feed.value
      ensures Publishes(cfg, states[k], events[k], a.id)
    {
      EmptySentPublished(cfg, states[k].seen, events[k].feed.value, a);
    }
  }
}
