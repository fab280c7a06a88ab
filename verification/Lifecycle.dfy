/** Concurrent Start and Stop calls on the connector runtime (connectors/runtime.go:86-135,
    157-158, 229-246), one step per lock acquisition. */
module Lifecycle {
  import opened Common

  /** Building: Start has inserted the instance and is building its push handler.
      Live: its supervisor runs. Exited: the supervisor has closed `done`.
      Abandoned: the push handler failed, no supervisor will ever run. */
  datatype Phase = Building | Live | Exited | Abandoned

  datatype Inst = Inst(id: string, phase: Phase, cancelled: bool)

  /** A Stop call in flight, the instance it found, and whether it saw `done` closed. */
  datatype StopCall = StopCall(id: string, inst: nat, sawDone: bool)

  datatype State = State(instances: map<string, nat>, insts: seq<Inst>, stops: map<nat, StopCall>)

  datatype Step =
    | StartInsert(id: string)
    | BuildFails(k: nat)
    | Launch(k: nat)
    | Exit(k: nat)
    | StopBegin(c: nat, id: string)
    | StopTimeout(c: nat)
    | StopSeesDone(c: nat)
    | StopDelete(c: nat)

  const INIT: State := State(map[], [], map[])

  predicate Enabled(s: State, step: Step) {
    match step
    case StartInsert(id) => id !in s.instances
    case BuildFails(k) => k < |s.insts| && s.insts[k].phase == Building
    case Launch(k) => k < |s.insts| && s.insts[k].phase == Building
    case Exit(k) => k < |s.insts| && s.insts[k].phase == Live
    case StopBegin(c, id) => c !in s.stops && id in s.instances && s.instances[id] < |s.insts|
    case StopTimeout(c) => c in s.stops && !s.stops[c].sawDone
    case StopSeesDone(c) => c in s.stops && s.stops[c].inst < |s.insts| && s.insts[s.stops[c].inst].phase == Exited
    case StopDelete(c) => c in s.stops && s.stops[c].sawDone
  }

  function Apply(s: State, step: Step): State
    requires Enabled(s, step)
  {
    match step
    case StartInsert(id) =>
      s.(instances := s.instances[id := |s.insts|], insts := s.insts + [Inst(id, Building, false)])
    case BuildFails(k) =>
      s.(instances := s.instances - {s.insts[k].id},
         insts := s.insts[k := s.insts[k].(phase := Abandoned, cancelled := true)])
    case Launch(k) => s.(insts := s.insts[k := s.insts[k].(phase := Live)])
    case Exit(k) => s.(insts := s.insts[k := s.insts[k].(phase := Exited)])
    case StopBegin(c, id) =>
      var k := s.instances[id];
      s.(stops := s.stops[c := StopCall(id, k, false)], insts := s.insts[k := s.insts[k].(cancelled := true)])
    case StopTimeout(c) => s.(stops := s.stops - {c})
    case StopSeesDone(c) => s.(stops := s.stops[c := s.stops[c].(sawDone := true)])
    case StopDelete(c) => s.(instances := s.instances - {s.stops[c].id}, stops := s.stops - {c})
  }

  /** At most one Stop in flight per instance ID. */
  predicate Disciplined(s: State, step: Step) {
    step.StopBegin? ==> forall c <- s.stops :: s.stops[c].id != step.id
  }

  predicate ValidRun(s: State, steps: seq<Step>)
    decreases steps
  {
    steps == [] || (Enabled(s, steps[0]) && ValidRun(Apply(s, steps[0]), steps[1..]))
  }

  function Final(s: State, steps: seq<Step>): State
    requires ValidRun(s, steps)
    decreases steps
  {
    if steps == [] then s else Final(Apply(s, steps[0]), steps[1..])
  }

  predicate OneStopPerId(s: State, steps: seq<Step>)
    requires ValidRun(s, steps)
    decreases steps
  {
    steps == [] || (Disciplined(s, steps[0]) && OneStopPerId(Apply(s, steps[0]), steps[1..]))
  }

  // ------------------------------------------------------------------
  // At most one supervisor per ID
  // ------------------------------------------------------------------

  predicate Active(i: Inst) { i.phase == Building || i.phase == Live }

  predicate Rivals(i: Inst, j: Inst) { Active(i) && Active(j) && i.id == j.id }

  ghost predicate AtMostOneActive(s: State) {
    forall j, k :: 0 <= j < |s.insts| && 0 <= k < |s.insts| && Rivals(s.insts[j], s.insts[k]) ==> j == k
  }

  ghost predicate Registered(s: State, k: nat)
    requires k < |s.insts|
  {
    s.insts[k].id in s.instances && s.instances[s.insts[k].id] == k
  }

  ghost predicate StopOk(s: State, call: StopCall) {
    && call.inst < |s.insts| && s.insts[call.inst].id == call.id
    && (call.sawDone ==> s.insts[call.inst].phase == Exited)
    && (s.insts[call.inst].phase != Abandoned ==> Registered(s, call.inst))
  }

  ghost predicate Inv(s: State) {
    && (forall id <- s.instances :: s.instances[id] < |s.insts| && s.insts[s.instances[id]].id == id
                                    && s.insts[s.instances[id]].phase != Abandoned)
    && (forall k :: 0 <= k < |s.insts| && Active(s.insts[k]) ==> Registered(s, k))
    && (forall c <- s.stops :: StopOk(s, s.stops[c]))
    && (forall c, d :: c in s.stops && d in s.stops && s.stops[c].id == s.stops[d].id ==> c == d)
  }

  lemma DeleteKeepsInv(s: State, c: nat)
    requires Inv(s) && Enabled(s, StopDelete(c))
    ensures Inv(Apply(s, StopDelete(c)))
    ensures s.insts[s.stops[c].inst].phase == Exited && Registered(s, s.stops[c].inst)
  {
    var s' := Apply(s, StopDelete(c));
    var call := s.stops[c];
    assert StopOk(s, call);
    forall k | 0 <= k < |s'.insts| && Active(s'.insts[k])
      ensures Registered(s', k)
    {
      assert Registered(s, k);
      assert s.insts[k].id != call.id;
    }
    forall d <- s'.stops
      ensures StopOk(s', s'.stops[d])
    {
      assert StopOk(s, s.stops[d]);
      assert s.stops[d].id != call.id;
    }
  }

  lemma BuildFailsKeepsInv(s: State, k: nat)
    requires Inv(s) && Enabled(s, BuildFails(k))
    ensures Inv(Apply(s, BuildFails(k)))
  {
    var s' := Apply(s, BuildFails(k));
    assert Registered(s, k);
    forall j | 0 <= j < |s'.insts| && Active(s'.insts[j])
      ensures Registered(s', j)
    {
      assert Registered(s, j);
    }
    forall d <- s'.stops
      ensures StopOk(s', s'.stops[d])
    {
      assert StopOk(s, s.stops[d]);
    }
  }

  lemma InsertKeepsInv(s: State, id: string)
    requires Inv(s) && Enabled(s, StartInsert(id))
    ensures Inv(Apply(s, StartInsert(id)))
  {
    var s' := Apply(s, StartInsert(id));
    forall j | 0 <= j < |s'.insts| && Active(s'.insts[j])
      ensures Registered(s', j)
    {
      if j < |s.insts| {
        assert Registered(s, j);
      }
    }
    forall d <- s'.stops
      ensures StopOk(s', s'.stops[d])
    {
      assert StopOk(s, s.stops[d]);
    }
  }

  lemma PhaseStepKeepsInv(s: State, step: Step)
    requires Inv(s) && Enabled(s, step) && (step.Launch? || step.Exit?)
    ensures Inv(Apply(s, step))
  {
    var s' := Apply(s, step);
    forall j | 0 <= j < |s'.insts| && Active(s'.insts[j])
      ensures Registered(s', j)
    {
      assert Registered(s, j);
    }
    forall d <- s'.stops
      ensures StopOk(s', s'.stops[d])
    {
      assert StopOk(s, s.stops[d]);
    }
  }

  lemma StopStepKeepsStops(s: State, step: Step, s': State)
    requires Inv(s) && Enabled(s, step) && s' == Apply(s, step)
    requires step.StopBegin? || step.StopTimeout? || step.StopSeesDone?
    ensures forall d <- s'.stops :: StopOk(s', s'.stops[d])
  {
    forall d <- s'.stops
      ensures StopOk(s', s'.stops[d])
    {
      if d in s.stops {
        assert StopOk(s, s.stops[d]);
      }
    }
  }

  lemma StopStepKeepsInv(s: State, step: Step)
    requires Inv(s) && Enabled(s, step) && Disciplined(s, step)
    requires step.StopBegin? || step.StopTimeout? || step.StopSeesDone?
    ensures Inv(Apply(s, step))
  {
    var s' := Apply(s, step);
    forall j | 0 <= j < |s'.insts| && Active(s'.insts[j])
      ensures Registered(s', j)
    {
      assert Active(s.insts[j]);
      assert Registered(s, j);
    }
    StopStepKeepsStops(s, step, s');
  }

  lemma StepKeepsInv(s: State, step: Step)
    requires Inv(s) && Enabled(s, step) && Disciplined(s, step)
    ensures Inv(Apply(s, step))
  {
    match step
    case StartInsert(id) => InsertKeepsInv(s, id);
    case BuildFails(k) => BuildFailsKeepsInv(s, k);
    case StopDelete(c) => DeleteKeepsInv(s, c);
    case Launch(_) => PhaseStepKeepsInv(s, step);
    case Exit(_) => PhaseStepKeepsInv(s, step);
    case _ => StopStepKeepsInv(s, step);
  }

  lemma {:induction false} RunKeepsInv(s: State, steps: seq<Step>)
    requires Inv(s) && ValidRun(s, steps) && OneStopPerId(s, steps)
    ensures Inv(Final(s, steps))
    decreases steps
  {
    if steps == [] {
    } else {
      StepKeepsInv(s, steps[0]);
      RunKeepsInv(Apply(s, steps[0]), steps[1..]);
    }
  }

  /** With at most one Stop in flight per ID, no interleaving of Starts, Stops, timeouts,
      handler failures and exits ever has two active instances of one ID. */
  lemma AtMostOneSupervisor(steps: seq<Step>)
    requires ValidRun(INIT, steps) && OneStopPerId(INIT, steps)
    ensures AtMostOneActive(Final(INIT, steps))
  {
    RunKeepsInv(INIT, steps);
    var s := Final(INIT, steps);
    forall j, k | 0 <= j < |s.insts| && 0 <= k < |s.insts| && Rivals(s.insts[j], s.insts[k])
      ensures j == k
    {
      assert Registered(s, j) && Registered(s, k);
    }
  }

  /** A Stop that succeeds removes the very instance it found, whose supervisor has returned. */
  lemma StopRemovesWhatItFound(steps: seq<Step>, c: nat)
    requires ValidRun(INIT, steps) && OneStopPerId(INIT, steps) && Enabled(Final(INIT, steps), StopDelete(c))
    ensures var s := Final(INIT, steps);
            var call := s.stops[c];
            && call.inst < |s.insts| && s.insts[call.inst].phase == Exited
            && call.id in s.instances && s.instances[call.id] == call.inst
            && call.id !in Apply(s, StopDelete(c)).instances
  {
    RunKeepsInv(INIT, steps);
    DeleteKeepsInv(Final(INIT, steps), c);
  }

  // ------------------------------------------------------------------
  // Exactly when it breaks
  // ------------------------------------------------------------------

  ghost predicate StopsLinked(s: State) {
    forall c <- s.stops ::
      && s.stops[c].inst < |s.insts| && s.insts[s.stops[c].inst].id == s.stops[c].id
      && (s.stops[c].sawDone ==> s.insts[s.stops[c].inst].phase == Exited)
      && s.insts[s.stops[c].inst].cancelled
  }

  /** What holds in every reachable state, whatever Stops overlap. */
  ghost predicate Linked(s: State) {
    && (forall id <- s.instances :: s.instances[id] < |s.insts| && s.insts[s.instances[id]].id == id)
    && (forall k :: 0 <= k < |s.insts| && s.insts[k].phase == Abandoned ==> s.insts[k].cancelled)
    && StopsLinked(s)
  }

  ghost predicate AllRegistered(s: State) {
    forall k :: 0 <= k < |s.insts| && Active(s.insts[k]) ==> Registered(s, k)
  }

  /** A Stop is about to remove, under the ID it was given, an instance that is still active:
      not the one it found, whose supervisor has returned. */
  predicate StrayDelete(s: State, step: Step)
    requires Enabled(s, step)
  {
    step.StopDelete? &&
    var id := s.stops[step.c].id;
    id in s.instances && s.instances[id] < |s.insts| && Active(s.insts[s.instances[id]])
  }

  predicate NoStrayDelete(s: State, steps: seq<Step>)
    requires ValidRun(s, steps)
    decreases steps
  {
    steps == [] || (!StrayDelete(s, steps[0]) && NoStrayDelete(Apply(s, steps[0]), steps[1..]))
  }

  lemma StepKeepsStops(s: State, step: Step, s': State)
    requires Linked(s) && Enabled(s, step) && s' == Apply(s, step)
    ensures StopsLinked(s')
  {
  }

  lemma StepKeepsLinked(s: State, step: Step, s': State)
    requires Linked(s) && Enabled(s, step) && s' == Apply(s, step)
    ensures Linked(s')
  {
    StepKeepsStops(s, step, s');
  }

  lemma {:induction false} RunKeepsLinked(s: State, steps: seq<Step>)
    requires Linked(s) && ValidRun(s, steps)
    ensures Linked(Final(s, steps))
    decreases steps
  {
    if steps == [] {
    } else {
      StepKeepsLinked(s, steps[0], Apply(s, steps[0]));
      RunKeepsLinked(Apply(s, steps[0]), steps[1..]);
    }
  }

  /** In every run, Stops overlapping or not: an instance that a Stop is waiting for, or whose push
      handler failed, has had its context cancelled; a Stop that saw `done` found it exited. */
  lemma StopsCancel(steps: seq<Step>)
    requires ValidRun(INIT, steps)
    ensures var s := Final(INIT, steps);
            && (forall c <- s.stops ::
                  && s.stops[c].inst < |s.insts| && s.insts[s.stops[c].inst].id == s.stops[c].id
                  && s.insts[s.stops[c].inst].cancelled
                  && (s.stops[c].sawDone ==> s.insts[s.stops[c].inst].phase == Exited))
            && (forall k :: 0 <= k < |s.insts| && s.insts[k].phase == Abandoned ==> s.insts[k].cancelled)
  {
    RunKeepsLinked(INIT, steps);
  }

  /** A step leaves an active instance unregistered if and only if it is a stray delete. */
  lemma UnregistersIff(s: State, step: Step, s': State)
    requires Linked(s) && AllRegistered(s) && Enabled(s, step) && s' == Apply(s, step)
    ensures AllRegistered(s') <==> !StrayDelete(s, step)
  {
    if StrayDelete(s, step) {
      var id := s.stops[step.c].id;
      assert !Registered(s', s.instances[id]);
    } else {
      forall k | 0 <= k < |s'.insts| && Active(s'.insts[k])
        ensures Registered(s', k)
      {
        if k < |s.insts| {
          assert Active(s.insts[k]);
          assert Registered(s, k);
        }
      }
    }
  }

  /** At most one active instance per ID, now and after one more Start of any free ID. */
  ghost predicate SafeHere(s: State) {
    && AtMostOneActive(s)
    && forall id: string :: Enabled(s, StartInsert(id)) ==> AtMostOneActive(Apply(s, StartInsert(id)))
  }

  /** ... in every state along the run. */
  ghost predicate SafeThroughout(s: State, steps: seq<Step>)
    requires ValidRun(s, steps)
    decreases steps
  {
    SafeHere(s) && (steps == [] || SafeThroughout(Apply(s, steps[0]), steps[1..]))
  }

  lemma RegisteredIsAtMostOne(s: State)
    requires AllRegistered(s)
    ensures AtMostOneActive(s)
  {
    forall j, k | 0 <= j < |s.insts| && 0 <= k < |s.insts| && Rivals(s.insts[j], s.insts[k])
      ensures j == k
    {
      assert Registered(s, j) && Registered(s, k);
    }
  }

  lemma RegisteredIsSafe(s: State)
    requires Linked(s) && AllRegistered(s)
    ensures SafeHere(s)
  {
    RegisteredIsAtMostOne(s);
    forall id: string | Enabled(s, StartInsert(id))
      ensures AtMostOneActive(Apply(s, StartInsert(id)))
    {
      UnregistersIff(s, StartInsert(id), Apply(s, StartInsert(id)));
      RegisteredIsAtMostOne(Apply(s, StartInsert(id)));
    }
  }

  /** After a stray delete the next Start of that ID makes a second active instance. */
  lemma StrayIsUnsafe(s: State, step: Step, s': State)
    requires Linked(s) && Enabled(s, step) && s' == Apply(s, step) && StrayDelete(s, step)
    ensures !SafeHere(s')
  {
    var id := s.stops[step.c].id;
    var k, next := s.instances[id], Apply(s', StartInsert(id));
    assert Rivals(next.insts[k], next.insts[|s'.insts|]);
  }

  /** For every run, with any number of overlapping Stops: there is never a second active
      instance of an ID, nor could one more Start make one, if and only if no Stop along the
      run removes an instance that is still active. */
  lemma {:induction false} SafeIffNoStrayDelete(s: State, steps: seq<Step>)
    requires Linked(s) && AllRegistered(s) && ValidRun(s, steps)
    ensures SafeThroughout(s, steps) <==> NoStrayDelete(s, steps)
    decreases steps
  {
    RegisteredIsSafe(s);
    if steps == [] {
    } else {
      var s' := Apply(s, steps[0]);
      StepKeepsLinked(s, steps[0], s');
      UnregistersIff(s, steps[0], s');
      if StrayDelete(s, steps[0]) {
        StrayIsUnsafe(s, steps[0], s');
      } else {
        SafeIffNoStrayDelete(s', steps[1..]);
      }
    }
  }

  /** One Stop at a time per ID rules stray deletes out: a Stop then removes what it found. */
  lemma {:induction false} OneStopMeansNoStray(s: State, steps: seq<Step>)
    requires Inv(s) && ValidRun(s, steps) && OneStopPerId(s, steps)
    ensures NoStrayDelete(s, steps)
    decreases steps
  {
    if steps == [] {
    } else {
      if steps[0].StopDelete? {
        DeleteKeepsInv(s, steps[0].c);
      }
      StepKeepsInv(s, steps[0]);
      OneStopMeansNoStray(Apply(s, steps[0]), steps[1..]);
    }
  }

  // ------------------------------------------------------------------
  // A run that breaks it
  // ------------------------------------------------------------------

  ghost predicate Reaches(s: State, steps: seq<Step>, t: State) {
    ValidRun(s, steps) && Final(s, steps) == t
  }

  lemma {:induction false} ReachesThen(s: State, a: seq<Step>, t: State, step: Step, t': State)
    requires Reaches(s, a, t) && Enabled(t, step) && Apply(t, step) == t'
    ensures Reaches(s, a + [step], t')
    decreases a
  {
    if a == [] {
      assert a + [step] == [step];
      assert ValidRun(t', [step][1..]);
    } else {
      ReachesThen(Apply(s, a[0]), a[1..], t, step, t');
      assert (a + [step])[1..] == a[1..] + [step];
    }
  }

  const TWO_STOPS: State :=
    State(map["a" := 0], [Inst("a", Live, true)], map[1 := StopCall("a", 0, false), 2 := StopCall("a", 0, false)])

  const STALE_STOP: State :=
    State(map[], [Inst("a", Exited, true)], map[2 := StopCall("a", 0, true)])

  const TWO_LIVE: State :=
    State(map["a" := 2], [Inst("a", Exited, true), Inst("a", Live, false), Inst("a", Live, false)], map[])

  lemma TwoStopsBegin() returns (a: seq<Step>)
    ensures Reaches(INIT, a, TWO_STOPS)
  {
    a := [];
    var s := State(map["a" := 0], [Inst("a", Building, false)], map[]);
    ReachesThen(INIT, a, INIT, StartInsert("a"), s);
    a := a + [StartInsert("a")];
    var s' := State(map["a" := 0], [Inst("a", Live, false)], map[]);
    ReachesThen(INIT, a, s, Launch(0), s');
    a := a + [Launch(0)];
    s := State(map["a" := 0], [Inst("a", Live, true)], map[1 := StopCall("a", 0, false)]);
    ReachesThen(INIT, a, s', StopBegin(1, "a"), s);
    a := a + [StopBegin(1, "a")];
    ReachesThen(INIT, a, s, StopBegin(2, "a"), TWO_STOPS);
    a := a + [StopBegin(2, "a")];
  }

  lemma OneStopFinishes() returns (a: seq<Step>)
    ensures Reaches(INIT, a, STALE_STOP)
  {
    a := TwoStopsBegin();
    var s := TWO_STOPS.(insts := [Inst("a", Exited, true)]);
    ReachesThen(INIT, a, TWO_STOPS, Exit(0), s);
    a := a + [Exit(0)];
    var s' := s.(stops := map[1 := StopCall("a", 0, true), 2 := StopCall("a", 0, false)]);
    ReachesThen(INIT, a, s, StopSeesDone(1), s');
    a := a + [StopSeesDone(1)];
    s := s.(stops := map[1 := StopCall("a", 0, true), 2 := StopCall("a", 0, true)]);
    ReachesThen(INIT, a, s', StopSeesDone(2), s);
    a := a + [StopSeesDone(2)];
    assert s.instances - {"a"} == map[];
    assert s.stops - {1} == STALE_STOP.stops;
    ReachesThen(INIT, a, s, StopDelete(1), STALE_STOP);
    a := a + [StopDelete(1)];
  }

  /** Two overlapping Stops of one ID can end in two live supervisors: the slower one removes
      an instance started in between. */
  lemma OverlappingStopsBreakIt()
    ensures exists steps: seq<Step> :: ValidRun(INIT, steps) && !AtMostOneActive(Final(INIT, steps))
  {
    var a := OneStopFinishes();
    var dead := Inst("a", Exited, true);
    var s := State(map["a" := 1], [dead, Inst("a", Building, false)], STALE_STOP.stops);
    ReachesThen(INIT, a, STALE_STOP, StartInsert("a"), s);
    a := a + [StartInsert("a")];
    var s' := State(map["a" := 1], [dead, Inst("a", Live, false)], STALE_STOP.stops);
    ReachesThen(INIT, a, s, Launch(1), s');
    a := a + [Launch(1)];
    s := State(map[], s'.insts, map[]);
    assert s'.instances - {"a"} == map[];
    assert s'.stops - {2} == map[];
    ReachesThen(INIT, a, s', StopDelete(2), s);
    a := a + [StopDelete(2)];
    s' := State(map["a" := 2], s.insts + [Inst("a", Building, false)], map[]);
    ReachesThen(INIT, a, s, StartInsert("a"), s');
    a := a + [StartInsert("a")];
    ReachesThen(INIT, a, s', Launch(2), TWO_LIVE);
    a := a + [Launch(2)];
    assert Rivals(TWO_LIVE.insts[1], TWO_LIVE.insts[2]);
  }
}
