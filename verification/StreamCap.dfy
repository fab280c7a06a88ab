/** The connection cap of httpapi/connectors.go:70-78: a handler increments the global
    counter, and undoes the increment when the result is over the cap. Increment, undo and
    exit are separate atomic steps of any number of handlers. */
module StreamCap {
  import opened Common

  const INT32: int := 0x8000_0000

  /** The counter is an atomic.Int32. */
  function Wrap32(x: int): int { (x + INT32) % (2 * INT32) - INT32 }

  datatype Phase = Rejecting | Admitted

  datatype State = State(cap: int, count: int, handlers: map<nat, Phase>)

  datatype Step =
    | Enter(h: nat)   // streamCount.Add(1) and the comparison of its result
    | Undo(h: nat)    // streamCount.Add(-1) of a rejected handler
    | Leave(h: nat)   // the deferred streamCount.Add(-1) of an admitted one

  function Init(cap: int): State { State(cap, 0, map[]) }

  predicate Enabled(s: State, step: Step) {
    match step
    case Enter(h) => h !in s.handlers
    case Undo(h) => h in s.handlers && s.handlers[h] == Rejecting
    case Leave(h) => h in s.handlers && s.handlers[h] == Admitted
  }

  function Apply(s: State, step: Step): State
    requires Enabled(s, step)
  {
    match step
    case Enter(h) =>
      var count := Wrap32(s.count + 1);
      s.(count := count, handlers := s.handlers[h := if count > s.cap then Rejecting else Admitted])
    case _ => s.(count := Wrap32(s.count - 1), handlers := s.handlers - {step.h})
  }

  predicate ValidRun(s: State, steps: seq<Step>)
    decreases steps
  {
    steps == [] || (Enabled(s, steps[0]) && ValidRun(Apply(s, steps[0]), steps[1..]))
  }

  function Final(s: State, steps: seq<Step>): State
    requires ValidRun(s, steps)
    decreases steps
  {
    if steps == [] then s else Final(Apply(s, steps[0]), steps[1..])
  }

  function InPhase(s: State, p: Phase): set<nat> {
    set h | h in s.handlers && s.handlers[h] == p
  }

  /** Fewer handlers exist at any time than an int32 can count. */
  predicate Countable(s: State, steps: seq<Step>)
    requires ValidRun(s, steps)
    decreases steps
  {
    |s.handlers| < 0x8000_0000 && (steps == [] || Countable(Apply(s, steps[0]), steps[1..]))
  }

  /** The counter is the number of admitted and rejecting handlers, and no more than the cap
      are admitted. */
  ghost predicate Inv(s: State) {
    && s.count == |InPhase(s, Admitted)| + |InPhase(s, Rejecting)| == |s.handlers|
    && |InPhase(s, Admitted)| <= Max(0, s.cap)
  }

  lemma PhasesSplit(s: State)
    ensures |InPhase(s, Admitted)| + |InPhase(s, Rejecting)| == |s.handlers|
  {
    assert InPhase(s, Admitted) + InPhase(s, Rejecting) == s.handlers.Keys;
    assert InPhase(s, Admitted) * InPhase(s, Rejecting) == {};
  }

  lemma WrapIsIdentity(x: int)
    requires -INT32 <= x < INT32
    ensures Wrap32(x) == x
  {
  }

  lemma EnterPhases(s: State, h: nat)
    requires Enabled(s, Enter(h))
    ensures var s' := Apply(s, Enter(h));
            && |s'.handlers| == |s.handlers| + 1
            && |InPhase(s', Admitted)| == |InPhase(s, Admitted)| + if s'.handlers[h] == Admitted then 1 else 0
  {
    var s' := Apply(s, Enter(h));
    assert s'.handlers.Keys == s.handlers.Keys + {h};
    assert InPhase(s', Admitted)
        == InPhase(s, Admitted) + if s'.handlers[h] == Admitted then {h} else {};
  }

  lemma ExitPhases(s: State, step: Step)
    requires Enabled(s, step) && !step.Enter?
    ensures var s' := Apply(s, step);
            && |s'.handlers| == |s.handlers| - 1
            && |InPhase(s', Admitted)| == |InPhase(s, Admitted)| - if step.Leave? then 1 else 0
  {
    var s' := Apply(s, step);
    assert s'.handlers.Keys == s.handlers.Keys - {step.h};
    assert InPhase(s', Admitted) == if step.Leave? then InPhase(s, Admitted) - {step.h} else InPhase(s, Admitted);
  }

  lemma StepKeepsInv(s: State, step: Step)
    requires Inv(s) && Enabled(s, step) && |Apply(s, step).handlers| < INT32
    ensures Inv(Apply(s, step))
  {
    PhasesSplit(Apply(s, step));
    if step.Enter? {
      EnterPhases(s, step.h);
      WrapIsIdentity(s.count + 1);
    } else {
      ExitPhases(s, step);
      WrapIsIdentity(s.count - 1);
    }
  }

  lemma {:induction false} RunKeepsInv(s: State, steps: seq<Step>)
    requires Inv(s) && ValidRun(s, steps) && Countable(s, steps)
    ensures Inv(Final(s, steps)) && Final(s, steps).cap == s.cap
    decreases steps
  {
    if steps == [] {
    } else {
      StepKeepsInv(s, steps[0]);
      RunKeepsInv(Apply(s, steps[0]), steps[1..]);
    }
  }

  /** In every interleaving the admitted sessions never exceed the cap, the counter is the
      admitted plus the rejecting handlers, and it is 0 again when all have finished. */
  lemma CapHolds(cap: int, steps: seq<Step>)
    requires ValidRun(Init(cap), steps) && Countable(Init(cap), steps)
    ensures var s := Final(Init(cap), steps);
            && |InPhase(s, Admitted)| <= Max(0, cap)
            && s.count == |InPhase(s, Admitted)| + |InPhase(s, Rejecting)|
            && (s.handlers == map[] ==> s.count == 0)
  {
    assert InPhase(Init(cap), Admitted) == {} && InPhase(Init(cap), Rejecting) == {};
    RunKeepsInv(Init(cap), steps);
  }

  /** A handler is refused exactly when the admitted and the still-rejecting handlers together
      fill the cap; so it can be refused while a slot is free. */
  lemma RefusedIff(s: State, h: nat)
    requires Inv(s) && Enabled(s, Enter(h)) && |s.handlers| + 1 < 0x8000_0000
    ensures Apply(s, Enter(h)).handlers[h] == Rejecting
            <==> |InPhase(s, Admitted)| + |InPhase(s, Rejecting)| >= s.cap
  {
    WrapIsIdentity(s.count + 1);
  }

  /** One session, one refused handler that has not yet undone its increment, and the session
      leaves: the next handler is refused with no session left. */
  lemma SpuriousRefusal()
    ensures exists steps: seq<Step>, h: nat ::
              && ValidRun(Init(1), steps) && Enabled(Final(Init(1), steps), Enter(h))
              && InPhase(Final(Init(1), steps), Admitted) == {}
              && Apply(Final(Init(1), steps), Enter(h)).handlers[h] == Rejecting
  {
    var s0 := Init(1);
    var s1 := Apply(s0, Enter(1));
    var s2 := Apply(s1, Enter(2));
    var s3 := Apply(s2, Leave(1));
    var steps := [Enter(1), Enter(2), Leave(1)];
    assert steps[1..] == [Enter(2), Leave(1)] && steps[1..][1..] == [Leave(1)] && steps[1..][1..][1..] == [];
    assert ValidRun(s2, [Leave(1)]) && Final(s2, [Leave(1)]) == s3;
    assert ValidRun(s1, steps[1..]) && Final(s1, steps[1..]) == s3;
    assert ValidRun(s0, steps) && Final(s0, steps) == s3;
    assert s3.handlers == map[2 := Rejecting];
    assert Apply(s3, Enter(3)).handlers[3] == Rejecting;
  }
}
