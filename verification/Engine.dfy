/** The alert rule engine of alerts/engine.go. Its dedupe map is pruned to save memory; the
    reference engine below remembers every alert it ever emitted, and the two agree. */
module Engine {
  import opened Common

  const DEDUPE_WINDOW: int := 5 * MINUTE

  datatype Rule = Rule(
    id: string, name: string, enabled: bool, connectorId: string,
    severityIn: seq<string>, tagEquals: map<string, string>)

  /** An emitted alert, stamped with the clock reading stored in the dedupe map. */
  datatype Alert = Alert(
    ruleId: string, ruleName: string, connectorId: string, sourceId: string,
    severity: string, tags: Option<map<string, string>>, payload: string, stamp: int)

  /** Go's map lookup: the zero value for a missing key or a nil map. */
  function Tag(r: Record, k: string): string {
    if r.tags.Some? && k in r.tags.value then r.tags.value[k] else ""
  }

  function SeverityOf(r: Record): string { Tag(r, "severity") }

  predicate RuleMatches(rule: Rule, r: Record) {
    && (rule.connectorId == "" || rule.connectorId == r.connectorId)
    && (rule.severityIn == [] || SeverityOf(r) in rule.severityIn)
    && (forall k <- rule.tagEquals :: r.tags.Some? && Tag(r, k) == rule.tagEquals[k])
  }

  function KeyOf(ruleId: string, connectorId: string, sourceId: string): string {
    ruleId + "|" + connectorId + "|" + sourceId
  }

  function AlertKey(a: Alert): string { KeyOf(a.ruleId, a.connectorId, a.sourceId) }

  function AlertFor(rule: Rule, r: Record, stamp: int): Alert {
    Alert(rule.id, rule.name, r.connectorId, r.sourceId, SeverityOf(r), r.tags, r.payload, stamp)
  }

  // ------------------------------------------------------------------
  // The engine as a value
  // ------------------------------------------------------------------

  datatype EngineState = EngineState(
    rules: seq<Rule>, window: int, dedupe: map<string, int>, emitted: seq<Alert>)

  /** The two clock readings made for one rule: by time.Since and for the new stamp. */
  datatype Tick = Tick(check: int, stamp: int)

  datatype Event =
    | Evaluate(r: Record, ticks: seq<Tick>)
    | Prune(now: int)
    | Reload(loaded: Option<seq<Rule>>)   // None: the store failed, the old rules stay

  function Consider(s: EngineState, rule: Rule, r: Record, tick: Tick): EngineState {
    var key := KeyOf(rule.id, r.connectorId, r.sourceId);
    if !rule.enabled || !RuleMatches(rule, r) then s
    else if key in s.dedupe && tick.check - s.dedupe[key] < s.window then s
    else s.(dedupe := s.dedupe[key := tick.stamp], emitted := s.emitted + [AlertFor(rule, r, tick.stamp)])
  }

  /** Rule by rule, up to the n-th rule of the snapshot. */
  function ConsiderAll(s: EngineState, rules: seq<Rule>, r: Record, ticks: seq<Tick>, n: nat): EngineState
    requires n <= |rules| && n <= |ticks|
  {
    if n == 0 then s else Consider(ConsiderAll(s, rules, r, ticks, n - 1), rules[n - 1], r, ticks[n - 1])
  }

  function Pruned(dedupe: map<string, int>, cut: int): map<string, int> {
    map key | key in dedupe && !(dedupe[key] < cut) :: dedupe[key]
  }

  function Handle(s: EngineState, prunes: bool, e: Event): EngineState {
    match e
    case Evaluate(r, ticks) => ConsiderAll(s, s.rules, r, ticks, Min(|s.rules|, |ticks|))
    case Prune(now) => if prunes then s.(dedupe := Pruned(s.dedupe, now - s.window)) else s
    case Reload(loaded) => if loaded.Some? then s.(rules := loaded.value) else s
  }

  function RunAll(s: EngineState, prunes: bool, events: seq<Event>): EngineState {
    if events == [] then s else Handle(RunAll(s, prunes, events[..|events| - 1]), prunes, events[|events| - 1])
  }

  // ------------------------------------------------------------------
  // The class
  // ------------------------------------------------------------------

  method Matches(rule: Rule, r: Record) returns (ok: bool)
    ensures ok <==> RuleMatches(rule, r)
    ensures ok <==>
              && (rule.connectorId == "" || rule.connectorId == r.connectorId)
              && (rule.severityIn == []
                  || (if r.tags.Some? && "severity" in r.tags.value then r.tags.value["severity"] else "")
                     in rule.severityIn)
              && (forall k <- rule.tagEquals ::
                    r.tags.Some? && (if k in r.tags.value then r.tags.value[k] else "") == rule.tagEquals[k])
  {
    if rule.connectorId != "" && rule.connectorId != r.connectorId {
      return false;
    }
    if |rule.severityIn| > 0 {
      var s := SeverityOf(r);
      var found := false;
      var i := 0;
      while i < |rule.severityIn| && !found
        invariant 0 <= i <= |rule.severityIn|
        invariant found <==> s in rule.severityIn[..i]
      {
        found := rule.severityIn[i] == s;
        i := i + 1;
      }
      assert rule.severityIn[..|rule.severityIn|] == rule.severityIn;
      if !found {
        return false;
      }
    }
    var todo := rule.tagEquals.Keys;
    while todo != {}
      invariant todo <= rule.tagEquals.Keys
      invariant forall k <- rule.tagEquals :: k in todo || (r.tags.Some? && Tag(r, k) == rule.tagEquals[k])
      decreases |todo|
    {
      var k :| k in todo;
      todo := todo - {k};
      if r.tags.None? || Tag(r, k) != rule.tagEquals[k] {
        return false;
      }
    }
    return true;
  }

  class RuleEngine {
    var rules: seq<Rule>
    const dedupeWindow: int
    var dedupe: map<string, int>
    var emitted: seq<Alert>   // stands for InsertAlert and Dispatch

    ghost function View(): EngineState
      reads this
    {
      EngineState(rules, dedupeWindow, dedupe, emitted)
    }

    constructor ()
      ensures View() == EngineState([], DEDUPE_WINDOW, map[], []) && dedupeWindow == 300_000_000_000
    {
      rules, dedupeWindow, dedupe, emitted := [], DEDUPE_WINDOW, map[], [];
    }

    method ReloadRules(loaded: Option<seq<Rule>>) returns (failed: bool)
      modifies this`rules
      ensures failed == loaded.None? && rules == if loaded.Some? then loaded.value else old(rules)
      ensures View() == Handle(old(View()), true, Reload(loaded))
    {
      if loaded.None? {
        return true;
      }
      rules := loaded.value;
      failed := false;
    }

    method PruneDedupe(now: int)
      modifies this`dedupe
      ensures View() == Handle(old(View()), true, Prune(now))
    {
      var cut := now - dedupeWindow;
      var todo := dedupe.Keys;
      while todo != {}
        invariant todo <= old(dedupe).Keys
        invariant forall k <- dedupe :: k in old(dedupe) && dedupe[k] == old(dedupe)[k]
        invariant forall k <- old(dedupe) :: k in dedupe <==> (k in todo || !(old(dedupe)[k] < cut))
        decreases |todo|
      {
        var k :| k in todo;
        todo := todo - {k};
        if dedupe[k] < cut {
          dedupe := dedupe - {k};
        }
      }
      assert dedupe == Pruned(old(dedupe), cut);
    }

    method Evaluate(r: Record, ticks: seq<Tick>)
      requires |ticks| == |rules|
      modifies this`dedupe, this`emitted
      ensures View() == Handle(old(View()), true, Event.Evaluate(r, ticks))
    {
      var snapshot := rules;
      var i := 0;
      while i < |snapshot|
        invariant 0 <= i <= |snapshot|
        invariant View() == ConsiderAll(old(View()), snapshot, r, ticks, i)
      {
        var rule := snapshot[i];
        var hit := false;
        if rule.enabled {
          hit := Matches(rule, r);
        }
        if hit {
          var key := rule.id + "|" + r.connectorId + "|" + r.sourceId;
          if key in dedupe && ticks[i].check - dedupe[key] < dedupeWindow {
          } else {
            dedupe := dedupe[key := ticks[i].stamp];
            emitted := emitted + [AlertFor(rule, r, ticks[i].stamp)];
          }
        }
        i := i + 1;
      }
    }
  }

  // ------------------------------------------------------------------
  // The reference engine: no map, only the alerts it has emitted
  // ------------------------------------------------------------------

  /** Some past alert with this key is younger than the window. */
  predicate Recent(emitted: seq<Alert>, key: string, now: int, window: int) {
    exists i :: 0 <= i < |emitted| && AlertKey(emitted[i]) == key && now - emitted[i].stamp < window
  }

  datatype Reference = Reference(rules: seq<Rule>, window: int, emitted: seq<Alert>)

  function RefConsider(s: Reference, rule: Rule, r: Record, tick: Tick): Reference {
    if rule.enabled && RuleMatches(rule, r)
       && !Recent(s.emitted, KeyOf(rule.id, r.connectorId, r.sourceId), tick.check, s.window)
    then s.(emitted := s.emitted + [AlertFor(rule, r, tick.stamp)])
    else s
  }

  function RefConsiderAll(s: Reference, rules: seq<Rule>, r: Record, ticks: seq<Tick>, n: nat): Reference
    requires n <= |rules| && n <= |ticks|
  {
    if n == 0 then s else RefConsider(RefConsiderAll(s, rules, r, ticks, n - 1), rules[n - 1], r, ticks[n - 1])
  }

  function RefHandle(s: Reference, e: Event): Reference {
    match e
    case Evaluate(r, ticks) => RefConsiderAll(s, s.rules, r, ticks, Min(|s.rules|, |ticks|))
    case Prune(_) => s
    case Reload(loaded) => if loaded.Some? then s.(rules := loaded.value) else s
  }

  function RefRunAll(s: Reference, events: seq<Event>): Reference {
    if events == [] then s else RefHandle(RefRunAll(s, events[..|events| - 1]), events[|events| - 1])
  }

  // ------------------------------------------------------------------
  // Agreement
  // ------------------------------------------------------------------

  /** Clock readings never run backwards, starting from t and ending at the result. */
  predicate TicksFrom(t: int, ticks: seq<Tick>) {
    && (forall i :: 0 <= i < |ticks| ==> t <= ticks[i].check <= ticks[i].stamp)
    && (forall i, j :: 0 <= i < j < |ticks| ==> ticks[i].stamp <= ticks[j].check)
  }

  function EndOf(t: int, e: Event): int {
    match e
    case Evaluate(_, ticks) => if ticks == [] then t else ticks[|ticks| - 1].stamp
    case Prune(now) => now
    case Reload(_) => t
  }

  function ClockAfter(t: int, events: seq<Event>): int {
    if events == [] then t else EndOf(ClockAfter(t, events[..|events| - 1]), events[|events| - 1])
  }

  predicate Monotone(t: int, events: seq<Event>) {
    events == [] ||
    var before, e := events[..|events| - 1], events[|events| - 1];
    && Monotone(t, before)
    && (match e
        case Evaluate(_, ticks) => TicksFrom(ClockAfter(t, before), ticks)
        case Prune(now) => ClockAfter(t, before) <= now
        case Reload(_) => true)
  }

  /** At time t the map holds, for each key, its newest stamp; a key it has forgotten has no
      alert young enough to matter. */
  ghost predicate Faithful(dedupe: map<string, int>, emitted: seq<Alert>, window: int, t: int) {
    && (forall i :: 0 <= i < |emitted| ==> emitted[i].stamp <= t)
    && (forall k <- dedupe ::
          exists i :: 0 <= i < |emitted| && AlertKey(emitted[i]) == k && emitted[i].stamp == dedupe[k])
    && (forall i :: 0 <= i < |emitted| ==>
          (var k := AlertKey(emitted[i]);
           if k in dedupe then emitted[i].stamp <= dedupe[k] else emitted[i].stamp + window <= t))
  }

  ghost predicate Agree(s: EngineState, ref: Reference, t: int) {
    && s.rules == ref.rules && s.window == ref.window && s.emitted == ref.emitted && s.window >= 0
    && Faithful(s.dedupe, s.emitted, s.window, t)
  }

  /** The map lookup answers the reference question about the whole history. */
  lemma LookupMeansRecent(s: EngineState, key: string, t: int, now: int)
    requires Faithful(s.dedupe, s.emitted, s.window, t) && s.window >= 0 && t <= now
    ensures (key in s.dedupe && now - s.dedupe[key] < s.window) <==> Recent(s.emitted, key, now, s.window)
  {
  }

  lemma LaterStillFaithful(s: EngineState, ref: Reference, t: int, t': int)
    requires Agree(s, ref, t) && t <= t'
    ensures Agree(s, ref, t')
  {
  }

  /** Stamping a new alert keeps the map faithful. */
  lemma StampKeepsFaithful(dedupe: map<string, int>, emitted: seq<Alert>, window: int, t: int, a: Alert)
    requires Faithful(dedupe, emitted, window, t) && t <= a.stamp
    ensures Faithful(dedupe[AlertKey(a) := a.stamp], emitted + [a], window, a.stamp)
  {
    var dedupe', emitted' := dedupe[AlertKey(a) := a.stamp], emitted + [a];
    assert emitted'[|emitted|] == a;
    forall k <- dedupe'
      ensures exists i :: 0 <= i < |emitted'| && AlertKey(emitted'[i]) == k && emitted'[i].stamp == dedupe'[k]
    {
      if k != AlertKey(a) {
        var i :| 0 <= i < |emitted| && AlertKey(emitted[i]) == k && emitted[i].stamp == dedupe[k];
        assert emitted'[i] == emitted[i];
      }
    }
  }

  lemma ConsiderAgrees(s: EngineState, ref: Reference, rule: Rule, r: Record, tick: Tick, t: int)
    requires Agree(s, ref, t) && t <= tick.check <= tick.stamp
    ensures Agree(Consider(s, rule, r, tick), RefConsider(ref, rule, r, tick), tick.stamp)
  {
    LookupMeansRecent(s, KeyOf(rule.id, r.connectorId, r.sourceId), t, tick.check);
    LaterStillFaithful(s, ref, t, tick.stamp);
    StampKeepsFaithful(s.dedupe, s.emitted, s.window, t, AlertFor(rule, r, tick.stamp));
  }

  lemma {:induction false} ConsiderAllAgrees(s: EngineState, ref: Reference, rules: seq<Rule>,
                                             r: Record, ticks: seq<Tick>, n: nat, t: int)
    requires Agree(s, ref, t) && n <= |rules| && n <= |ticks| && TicksFrom(t, ticks)
    ensures Agree(ConsiderAll(s, rules, r, ticks, n), RefConsiderAll(ref, rules, r, ticks, n),
                  if n == 0 then t else ticks[n - 1].stamp)
  {
    if n == 0 {
    } else {
      ConsiderAllAgrees(s, ref, rules, r, ticks, n - 1, t);
      ConsiderAgrees(ConsiderAll(s, rules, r, ticks, n - 1), RefConsiderAll(ref, rules, r, ticks, n - 1),
                     rules[n - 1], r, ticks[n - 1], if n == 1 then t else ticks[n - 2].stamp);
    }
  }

  lemma PruneAgrees(s: EngineState, ref: Reference, t: int, now: int)
    requires Agree(s, ref, t) && t <= now
    ensures Agree(s.(dedupe := Pruned(s.dedupe, now - s.window)), ref, now)
  {
    LaterStillFaithful(s, ref, t, now);
    var kept := Pruned(s.dedupe, now - s.window);
    forall k <- kept
      ensures exists i :: 0 <= i < |s.emitted| && AlertKey(s.emitted[i]) == k && s.emitted[i].stamp == kept[k]
    {
      assert k in s.dedupe && kept[k] == s.dedupe[k];
    }
  }

  lemma HandleAgrees(s: EngineState, ref: Reference, prunes: bool, e: Event, t: int)
    requires Agree(s, ref, t)
    requires match e
             case Evaluate(_, ticks) => TicksFrom(t, ticks)
             case Prune(now) => t <= now
             case Reload(_) => true
    ensures Agree(Handle(s, prunes, e), RefHandle(ref, e), EndOf(t, e))
  {
    match e
    case Evaluate(r, ticks) =>
      var n := Min(|s.rules|, |ticks|);
      ConsiderAllAgrees(s, ref, s.rules, r, ticks, n, t);
      LaterStillFaithful(ConsiderAll(s, s.rules, r, ticks, n), RefConsiderAll(ref, s.rules, r, ticks, n),
                         if n == 0 then t else ticks[n - 1].stamp, EndOf(t, e));
    case Prune(now) =>
      if prunes {
        PruneAgrees(s, ref, t, now);
      } else {
        LaterStillFaithful(s, ref, t, now);
      }
    case Reload(loaded) =>
  }

  /** Over any run of records, reloads and prunes under a monotone clock, the engine emits
      exactly what the reference engine emits: a matching rule is suppressed if and only if
      an alert with its key was emitted less than a window ago. */
  lemma {:induction false} EngineMeetsReference(s: EngineState, ref: Reference, prunes: bool,
                                                events: seq<Event>, t: int)
    requires Agree(s, ref, t) && Monotone(t, events)
    ensures Agree(RunAll(s, prunes, events), RefRunAll(ref, events), ClockAfter(t, events))
  {
    if events == [] {
    } else {
      var before := events[..|events| - 1];
      EngineMeetsReference(s, ref, prunes, before, t);
      HandleAgrees(RunAll(s, prunes, before), RefRunAll(ref, before), prunes, events[|events| - 1],
                   ClockAfter(t, before));
    }
  }

  /** Pruning is unobservable. */
  lemma PruningUnobservable(rules: seq<Rule>, events: seq<Event>, t: int)
    requires Monotone(t, events)
    ensures RunAll(EngineState(rules, DEDUPE_WINDOW, map[], []), true, events).emitted
            == RunAll(EngineState(rules, DEDUPE_WINDOW, map[], []), false, events).emitted
  {
    var s, ref := EngineState(rules, DEDUPE_WINDOW, map[], []), Reference(rules, DEDUPE_WINDOW, []);
    EngineMeetsReference(s, ref, true, events, t);
    EngineMeetsReference(s, ref, false, events, t);
  }

  /** Pruning forgets exactly the stamps older than a window. */
  lemma PrunePolicy(s: EngineState, now: int, key: string)
    ensures var s' := Handle(s, true, Prune(now));
            && (key in s'.dedupe <==> key in s.dedupe && s.dedupe[key] >= now - s.window)
            && (key in s'.dedupe ==> s'.dedupe[key] == s.dedupe[key])
            && s'.rules == s.rules && s'.emitted == s.emitted
  {
  }

  // ------------------------------------------------------------------
  // Which rules fire
  // ------------------------------------------------------------------

  /** The alert carries the record and names the rule. */
  predicate Carries(rule: Rule, r: Record, a: Alert) {
    && a.ruleId == rule.id && a.ruleName == rule.name
    && a.connectorId == r.connectorId && a.sourceId == r.sourceId && a.tags == r.tags && a.payload == r.payload
    && a.severity == if r.tags.Some? && "severity" in r.tags.value then r.tags.value["severity"] else ""
  }

  /** The rule is switched on and asks for this connector, severity and tags. A tag the record
      does not have reads as the empty string, but a record without tags satisfies no tag rule. */
  predicate Wants(rule: Rule, a: Alert) {
    && rule.enabled
    && (rule.connectorId == "" || rule.connectorId == a.connectorId)
    && (rule.severityIn == [] || a.severity in rule.severityIn)
    && (forall k <- rule.tagEquals ::
          a.tags.Some? && (if k in a.tags.value then a.tags.value[k] else "") == rule.tagEquals[k])
  }

  lemma AlertForCarries(rule: Rule, r: Record, stamp: int)
    ensures Carries(rule, r, AlertFor(rule, r, stamp)) && AlertFor(rule, r, stamp).stamp == stamp
    ensures Wants(rule, AlertFor(rule, r, stamp)) <==> rule.enabled && RuleMatches(rule, r)
  {
  }

  /** Rule m of the snapshot caused alert i. */
  predicate CausedBy(a: Alert, rules: seq<Rule>, r: Record, ticks: seq<Tick>, m: nat) {
    m < |rules| && m < |ticks| && Carries(rules[m], r, a) && Wants(rules[m], a) && a.stamp == ticks[m].stamp
  }

  lemma {:induction false} NewAlertsAreCaused(s: EngineState, rules: seq<Rule>, r: Record, ticks: seq<Tick>,
                                              n: nat, i: nat)
    requires n <= |rules| && n <= |ticks|
    ensures s.emitted <= ConsiderAll(s, rules, r, ticks, n).emitted
    ensures |s.emitted| <= i < |ConsiderAll(s, rules, r, ticks, n).emitted| ==>
              exists m: nat :: CausedBy(ConsiderAll(s, rules, r, ticks, n).emitted[i], rules, r, ticks, m)
  {
    if n == 0 {
    } else {
      var before, after := ConsiderAll(s, rules, r, ticks, n - 1), ConsiderAll(s, rules, r, ticks, n);
      NewAlertsAreCaused(s, rules, r, ticks, n - 1, i);
      AlertForCarries(rules[n - 1], r, ticks[n - 1].stamp);
      if |s.emitted| <= i < |before.emitted| {
        var m: nat :| CausedBy(before.emitted[i], rules, r, ticks, m);
        assert after.emitted[i] == before.emitted[i];
        assert CausedBy(after.emitted[i], rules, r, ticks, m);
      } else if |before.emitted| <= i < |after.emitted| {
        assert CausedBy(after.emitted[i], rules, r, ticks, n - 1);
      }
    }
  }

  /** Event e evaluated a record for which a rule then loaded caused this alert. */
  ghost predicate CausedAt(s: EngineState, prunes: bool, events: seq<Event>, e: nat, a: Alert) {
    && e < |events| && events[e].Evaluate?
    && exists m: nat :: CausedBy(a, RunAll(s, prunes, events[..e]).rules, events[e].r, events[e].ticks, m)
  }

  /** Every alert of a run was caused: by a record that some event evaluated and a rule loaded at
      that time which was on and asked for the alert's connector, severity and tags. */
  lemma {:induction false} EveryAlertIsCaused(s: EngineState, prunes: bool, events: seq<Event>, i: nat)
    ensures s.emitted <= RunAll(s, prunes, events).emitted
    ensures |s.emitted| <= i < |RunAll(s, prunes, events).emitted| ==>
              exists e: nat :: CausedAt(s, prunes, events, e, RunAll(s, prunes, events).emitted[i])
  {
    if events == [] {
    } else {
      var n := |events| - 1;
      var before, mid, after := events[..n], RunAll(s, prunes, events[..n]), RunAll(s, prunes, events);
      EveryAlertIsCaused(s, prunes, before, i);
      if events[n].Evaluate? {
        NewAlertsAreCaused(mid, mid.rules, events[n].r, events[n].ticks, Min(|mid.rules|, |events[n].ticks|), i);
      }
      if |s.emitted| <= i < |after.emitted| {
        if i < |mid.emitted| {
          var e: nat :| CausedAt(s, prunes, before, e, mid.emitted[i]);
          assert before[..e] == events[..e] && before[e] == events[e];
          assert CausedAt(s, prunes, events, e, after.emitted[i]);
        } else {
          assert CausedAt(s, prunes, events, n, after.emitted[i]);
        }
      }
    }
  }

  /** Some alert so far has the rule's key for this record and is less than five minutes old. */
  predicate YoungerAlert(emitted: seq<Alert>, rule: Rule, r: Record, now: int) {
    exists i :: 0 <= i < |emitted| && now - emitted[i].stamp < 300_000_000_000
                && AlertKey(emitted[i]) == rule.id + "|" + r.connectorId + "|" + r.sourceId
  }

  lemma {:induction false} ConsiderAllGrows(s: EngineState, rules: seq<Rule>, r: Record,
      ticks: seq<Tick>, m: nat, n: nat)
    requires m <= n <= |rules| && n <= |ticks|
    ensures ConsiderAll(s, rules, r, ticks, m).emitted <= ConsiderAll(s, rules, r, ticks, n).emitted
    decreases n
  {
    if m < n {
      ConsiderAllGrows(s, rules, r, ticks, m, n - 1);
    }
  }

  lemma ConsiderFiresIff(s: EngineState, ref: Reference, rule: Rule, r: Record, tick: Tick, t: int)
    requires Agree(s, ref, t) && s.window == 300_000_000_000 && t <= tick.check
    ensures var a := AlertFor(rule, r, tick.stamp);
            Consider(s, rule, r, tick).emitted
            == s.emitted + if Wants(rule, a) && !YoungerAlert(s.emitted, rule, r, tick.check) then [a] else []
  {
    AlertForCarries(rule, r, tick.stamp);
    LookupMeansRecent(s, KeyOf(rule.id, r.connectorId, r.sourceId), t, tick.check);
  }

  lemma {:induction false} ConsiderAllKeepsWindow(s: EngineState, rules: seq<Rule>, r: Record, ticks: seq<Tick>, n: nat)
    requires n <= |rules| && n <= |ticks|
    ensures ConsiderAll(s, rules, r, ticks, n).window == s.window
  {
    if n == 0 {
    } else {
      ConsiderAllKeepsWindow(s, rules, r, ticks, n - 1);
    }
  }

  lemma RuleFiresFrom(s: EngineState, ref: Reference, r: Record, ticks: seq<Tick>, n: nat, t: int)
    requires Agree(s, ref, t) && s.window == 300_000_000_000 && TicksFrom(t, ticks) && n < |s.rules| <= |ticks|
    ensures var rule, soFar := s.rules[n], ConsiderAll(s, s.rules, r, ticks, n).emitted;
            var a := AlertFor(rule, r, ticks[n].stamp);
            && Carries(rule, r, a) && a.stamp == ticks[n].stamp
            && ConsiderAll(s, s.rules, r, ticks, n + 1).emitted
               == soFar + if Wants(rule, a) && !YoungerAlert(soFar, rule, r, ticks[n].check) then [a] else []
  {
    ConsiderAllAgrees(s, ref, s.rules, r, ticks, n, t);
    ConsiderAllKeepsWindow(s, s.rules, r, ticks, n);
    AlertForCarries(s.rules[n], r, ticks[n].stamp);
    ConsiderFiresIff(ConsiderAll(s, s.rules, r, ticks, n), RefConsiderAll(ref, s.rules, r, ticks, n),
                     s.rules[n], r, ticks[n], if n == 0 then t else ticks[n - 1].stamp);
  }

  lemma {:induction false} RefConsiderAllKeepsWindow(ref: Reference, rules: seq<Rule>, r: Record,
      ticks: seq<Tick>, n: nat)
    requires n <= |rules| && n <= |ticks|
    ensures RefConsiderAll(ref, rules, r, ticks, n).window == ref.window
  {
    if n == 0 {
    } else {
      RefConsiderAllKeepsWindow(ref, rules, r, ticks, n - 1);
    }
  }

  lemma {:induction false} WindowStays(ref: Reference, events: seq<Event>)
    ensures RefRunAll(ref, events).window == ref.window
  {
    if events == [] {
    } else {
      var before, e := events[..|events| - 1], events[|events| - 1];
      WindowStays(ref, before);
      if e.Evaluate? {
        var mid := RefRunAll(ref, before);
        RefConsiderAllKeepsWindow(mid, mid.rules, e.r, e.ticks, Min(|mid.rules|, |e.ticks|));
      }
    }
  }

  /** The state of a run agrees with some state of the reference engine. */
  lemma RunAgrees(rules: seq<Rule>, prunes: bool, events: seq<Event>, t: int, s: EngineState) returns (ref: Reference)
    requires Monotone(t, events) && s == RunAll(EngineState(rules, DEDUPE_WINDOW, map[], []), prunes, events)
    ensures Agree(s, ref, ClockAfter(t, events)) && s.window == 300_000_000_000
  {
    var s0, ref0 := EngineState(rules, DEDUPE_WINDOW, map[], []), Reference(rules, DEDUPE_WINDOW, []);
    EngineMeetsReference(s0, ref0, prunes, events, t);
    WindowStays(ref0, events);
    ref := RefRunAll(ref0, events);
  }

  /** After any run, when a record comes up against the n-th rule: the rule fires, with an alert
      that carries the record and the time, if and only if it wants the record and no alert of
      its key is younger than five minutes. */
  lemma RuleFiresIff(rules: seq<Rule>, prunes: bool, before: seq<Event>, r: Record, ticks: seq<Tick>, n: nat,
                     t: int, s: EngineState)
    requires Monotone(t, before) && TicksFrom(ClockAfter(t, before), ticks)
    requires s == RunAll(EngineState(rules, DEDUPE_WINDOW, map[], []), prunes, before) && n < |s.rules| <= |ticks|
    ensures var rule, soFar := s.rules[n], ConsiderAll(s, s.rules, r, ticks, n).emitted;
            var a := AlertFor(rule, r, ticks[n].stamp);
            && Carries(rule, r, a) && a.stamp == ticks[n].stamp
            && ConsiderAll(s, s.rules, r, ticks, n + 1).emitted
               == soFar + if Wants(rule, a) && !YoungerAlert(soFar, rule, r, ticks[n].check) then [a] else []
  {
    var ref := RunAgrees(rules, prunes, before, t, s);
    RuleFiresFrom(s, ref, r, ticks, n, ClockAfter(t, before));
  }

  /** Evaluating a record goes through all the loaded rules and keeps every alert on the way. */
  lemma EvaluationIsComplete(s0: EngineState, prunes: bool, before: seq<Event>, r: Record, ticks: seq<Tick>, n: nat,
                             s: EngineState)
    requires s == RunAll(s0, prunes, before) && n <= |s.rules| <= |ticks|
    ensures ConsiderAll(s, s.rules, r, ticks, n).emitted
            <= RunAll(s0, prunes, before + [Evaluate(r, ticks)]).emitted
               == ConsiderAll(s, s.rules, r, ticks, |s.rules|).emitted
  {
    ConsiderAllGrows(s, s.rules, r, ticks, n, |s.rules|);
    assert (before + [Evaluate(r, ticks)])[..|before|] == before;
  }

  // ------------------------------------------------------------------
  // How often one key can fire
  // ------------------------------------------------------------------

  /** Alerts of one key are at least a window apart, in emission order. */
  ghost predicate Spaced(emitted: seq<Alert>, window: int) {
    forall i, j :: 0 <= i < j < |emitted| && AlertKey(emitted[i]) == AlertKey(emitted[j])
                   ==> emitted[j].stamp - emitted[i].stamp >= window
  }

  lemma RefConsiderSpaced(ref: Reference, rule: Rule, r: Record, tick: Tick)
    requires Spaced(ref.emitted, ref.window) && tick.check <= tick.stamp
    ensures Spaced(RefConsider(ref, rule, r, tick).emitted, ref.window)
  {
    var after := RefConsider(ref, rule, r, tick);
    if after != ref {
      forall i | 0 <= i < |ref.emitted| && AlertKey(after.emitted[i]) == AlertKey(after.emitted[|ref.emitted|])
        ensures tick.stamp - after.emitted[i].stamp >= ref.window
      {
        assert after.emitted[i] == ref.emitted[i];
      }
    }
  }

  lemma {:induction false} RefConsiderAllSpaced(ref: Reference, rules: seq<Rule>, r: Record, ticks: seq<Tick>, n: nat)
    requires Spaced(ref.emitted, ref.window) && n <= |rules| && n <= |ticks|
    requires forall i :: 0 <= i < |ticks| ==> ticks[i].check <= ticks[i].stamp
    ensures Spaced(RefConsiderAll(ref, rules, r, ticks, n).emitted, ref.window)
    ensures RefConsiderAll(ref, rules, r, ticks, n).window == ref.window
  {
    if n == 0 {
    } else {
      RefConsiderAllSpaced(ref, rules, r, ticks, n - 1);
      RefConsiderSpaced(RefConsiderAll(ref, rules, r, ticks, n - 1), rules[n - 1], r, ticks[n - 1]);
    }
  }

  lemma {:induction false} RefRunSpaced(ref: Reference, events: seq<Event>, t: int)
    requires Spaced(ref.emitted, ref.window) && Monotone(t, events)
    ensures Spaced(RefRunAll(ref, events).emitted, ref.window)
    ensures RefRunAll(ref, events).window == ref.window
  {
    if events == [] {
    } else {
      var before, e := events[..|events| - 1], events[|events| - 1];
      RefRunSpaced(ref, before, t);
      if e.Evaluate? {
        var mid := RefRunAll(ref, before);
        RefConsiderAllSpaced(mid, mid.rules, e.r, e.ticks, Min(|mid.rules|, |e.ticks|));
      }
    }
  }

  function CountIn(emitted: seq<Alert>, key: string, from: int, until: int): nat {
    if emitted == [] then 0
    else
      var last := emitted[|emitted| - 1];
      CountIn(emitted[..|emitted| - 1], key, from, until)
      + if AlertKey(last) == key && from <= last.stamp <= until then 1 else 0
  }

  lemma {:induction false} CountNarrows(emitted: seq<Alert>, key: string, from: int, until: int, until': int)
    requires until' <= until
    requires forall i :: 0 <= i < |emitted| && AlertKey(emitted[i]) == key ==> emitted[i].stamp <= until'
    ensures CountIn(emitted, key, from, until) == CountIn(emitted, key, from, until')
  {
    if emitted == [] {
    } else {
      CountNarrows(emitted[..|emitted| - 1], key, from, until, until');
    }
  }

  lemma OneMore(c: nat, window: int, length: int, upToLast: int)
    requires 0 <= upToLast <= length && (c > 0 ==> (c - 1) * window <= upToLast - window)
    ensures c * window <= length
  {
    if c > 0 {
      assert c * window == (c - 1) * window + window;
    }
  }

  lemma {:induction false} SpacedCount(emitted: seq<Alert>, window: int, key: string, from: int, until: int)
    requires Spaced(emitted, window) && window > 0
    ensures CountIn(emitted, key, from, until) > 0 ==>
              (CountIn(emitted, key, from, until) - 1) * window <= until - from
  {
    if emitted == [] {
    } else {
      var n := |emitted| - 1;
      var before, last := emitted[..n], emitted[n];
      SpacedCount(before, window, key, from, until);
      if AlertKey(last) == key && from <= last.stamp <= until {
        SpacedCount(before, window, key, from, last.stamp - window);
        CountNarrows(before, key, from, until, last.stamp - window);
        OneMore(CountIn(before, key, from, until), window, until - from, last.stamp - from);
      }
    }
  }

  lemma QuotientBound(c: int, window: int, length: int)
    requires window > 0 && length >= 0 && (c >= 0 ==> c * window <= length)
    ensures c <= length / window
  {
    if c >= 0 {
      var q := length / window;
      assert length < (q + 1) * window;
      SmallFactor(c, q + 1, window);
    }
  }

  lemma SpacedRate(emitted: seq<Alert>, window: int, key: string, from: int, until: int)
    requires Spaced(emitted, window) && window > 0 && from <= until
    ensures CountIn(emitted, key, from, until) <= (until - from) / window + 1
  {
    SpacedCount(emitted, window, key, from, until);
    QuotientBound(CountIn(emitted, key, from, until) - 1, window, until - from);
  }

  /** In any interval of length T, one key fires at most floor(T / window) + 1 times. */
  lemma AlertRateBound(rules: seq<Rule>, prunes: bool, events: seq<Event>, t: int, key: string, from: int, until: int)
    requires Monotone(t, events) && from <= until
    ensures var s := RunAll(EngineState(rules, DEDUPE_WINDOW, map[], []), prunes, events);
            && Spaced(s.emitted, DEDUPE_WINDOW)
            && CountIn(s.emitted, key, from, until) <= (until - from) / DEDUPE_WINDOW + 1
  {
    var s, ref := EngineState(rules, DEDUPE_WINDOW, map[], []), Reference(rules, DEDUPE_WINDOW, []);
    EngineMeetsReference(s, ref, prunes, events, t);
    RefRunSpaced(ref, events, t);
    SpacedRate(RefRunAll(ref, events).emitted, DEDUPE_WINDOW, key, from, until);
  }

  // ------------------------------------------------------------------
  // The dedupe key
  // ------------------------------------------------------------------

  predicate Plain(s: string) { '|' !in s }

  /** The key belongs to this rule, connector and source alone. */
  ghost predicate Unambiguous(ruleId: string, connectorId: string, sourceId: string) {
    forall a: string, b: string, c: string ::
      KeyOf(a, b, c) == KeyOf(ruleId, connectorId, sourceId) ==> a == ruleId && b == connectorId && c == sourceId
  }

  function Bars(s: string): nat { if s == [] then 0 else (if s[0] == '|' then 1 else 0) + Bars(s[1..]) }

  lemma {:induction false} BarsConcat(a: string, b: string)
    ensures Bars(a + b) == Bars(a) + Bars(b)
  {
    if a == [] {
      assert a + b == b;
    } else {
      assert (a + b)[1..] == a[1..] + b;
      BarsConcat(a[1..], b);
    }
  }

  lemma {:induction false} PlainMeansNoBars(s: string)
    ensures Plain(s) <==> Bars(s) == 0
  {
    if s == [] {
    } else {
      PlainMeansNoBars(s[1..]);
      assert s == [s[0]] + s[1..];
    }
  }

  /** A plain prefix up to a bar is determined by the string. */
  lemma FirstBar(a: string, x: string, b: string, y: string)
    requires Plain(a) && Plain(b) && a + "|" + x == b + "|" + y
    ensures a == b && x == y
  {
    var s := a + "|" + x;
    assert s[|a|] == '|' && s[|b|] == '|';
    assert forall i :: 0 <= i < |a| ==> s[i] == a[i] && a[i] != '|';
    assert forall i :: 0 <= i < |b| ==> s[i] == b[i] && b[i] != '|';
    assert a == s[..|a|] && b == s[..|b|];
    assert x == s[|a| + 1..] && y == s[|b| + 1..];
  }

  lemma KeyBars(a: string, b: string, c: string)
    ensures Bars(KeyOf(a, b, c)) == Bars(a) + Bars(b) + Bars(c) + 2
  {
    BarsConcat(a + "|" + b + "|", c);
    BarsConcat(a + "|" + b, "|");
    BarsConcat(a + "|", b);
    BarsConcat(a, "|");
    assert Bars("|") == 1 + Bars("|"[1..]);
  }

  lemma PlainTriple(a: string, b: string, c: string, a': string, b': string, c': string)
    requires Plain(a') && Plain(b') && Plain(c') && KeyOf(a, b, c) == KeyOf(a', b', c')
    ensures a == a' && b == b' && c == c'
  {
    KeyBars(a, b, c);
    KeyBars(a', b', c');
    PlainMeansNoBars(a);
    PlainMeansNoBars(b);
    PlainMeansNoBars(a');
    PlainMeansNoBars(b');
    PlainMeansNoBars(c');
    assert KeyOf(a, b, c) == a + "|" + (b + "|" + c);
    assert KeyOf(a', b', c') == a' + "|" + (b' + "|" + c');
    FirstBar(a, b + "|" + c, a', b' + "|" + c');
    FirstBar(b, c, b', c');
  }

  /** The key identifies its rule, connector and source exactly when none contains a bar:
      "source 1|2 of connector a" and "source 2 of connector a|1" share their dedupe entry. */
  lemma KeyUnambiguousIffPlain(ruleId: string, connectorId: string, sourceId: string)
    ensures Unambiguous(ruleId, connectorId, sourceId) <==> Plain(ruleId) && Plain(connectorId) && Plain(sourceId)
  {
    if Plain(ruleId) && Plain(connectorId) && Plain(sourceId) {
      forall a: string, b: string, c: string | KeyOf(a, b, c) == KeyOf(ruleId, connectorId, sourceId)
        ensures a == ruleId && b == connectorId && c == sourceId
      {
        PlainTriple(a, b, c, ruleId, connectorId, sourceId);
      }
    } else if !Plain(ruleId) {
      var i :| 0 <= i < |ruleId| && ruleId[i] == '|';
      assert ruleId == ruleId[..i] + "|" + ruleId[i + 1..];
      assert KeyOf(ruleId[..i], ruleId[i + 1..], connectorId + "|" + sourceId) == KeyOf(ruleId, connectorId, sourceId);
    } else if !Plain(connectorId) {
      var i :| 0 <= i < |connectorId| && connectorId[i] == '|';
      assert connectorId == connectorId[..i] + "|" + connectorId[i + 1..];
      assert KeyOf(ruleId, connectorId[..i], connectorId[i + 1..] + "|" + sourceId)
          == KeyOf(ruleId, connectorId, sourceId);
    } else {
      var i :| 0 <= i < |sourceId| && sourceId[i] == '|';
      assert sourceId == sourceId[..i] + "|" + sourceId[i + 1..];
      assert KeyOf(ruleId, connectorId + "|" + sourceId[..i], sourceId[i + 1..])
          == KeyOf(ruleId, connectorId, sourceId);
    }
  }
}
