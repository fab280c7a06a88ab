/** One supervised connector instance: supervise, runOnce and setState of
    connectors/runtime.go. */
module Supervisor {
  import opened Common
  import opened Backoff

  datatype InstanceState = Starting | Running | InBackoff | Stopped | Failed

  /** How one call of the connector's Run ended. ContextEnded covers every error that wraps
      context.Canceled or context.DeadlineExceeded. */
  datatype RunResult =
    | CleanExit
    | ContextEnded
    | Error(message: string)
    | Panic(value: string)

  /** One run, when it ended, and whether the context was cancelled during the backoff that
      would follow. */
  datatype Turn = Turn(result: RunResult, at: int, cancelledInBackoff: bool)

  const BASE_DELAY: int := 500_000_000
  const MAX_DELAY: int := 30 * SECOND

  predicate Fails(r: RunResult) { r.Error? || r.Panic? }

  /** After this turn the supervisor has returned. */
  predicate Ends(t: Turn) { !Fails(t.result) || t.cancelledInBackoff }

  /** The state changes setState ever makes. */
  predicate Follows(a: InstanceState, b: InstanceState) {
    match a
    case Starting => b == Running
    case Running => b == InBackoff || b == Stopped
    case InBackoff => b == Running || b == Stopped
    case _ => false
  }

  predicate StepAt(trace: seq<InstanceState>, i: int) {
    0 <= i < |trace| - 1 ==> Follows(trace[i], trace[i + 1])
  }

  ghost predicate WellShaped(trace: seq<InstanceState>) {
    && trace != [] && trace[0] == Starting
    && forall i :: StepAt(trace, i)
  }

  lemma WellShapedAppend(trace: seq<InstanceState>, next: InstanceState)
    requires WellShaped(trace) && Follows(trace[|trace| - 1], next)
    ensures WellShaped(trace + [next])
  {
    forall i
      ensures StepAt(trace + [next], i)
    {
      assert StepAt(trace, i);
    }
  }

  function Resumptions(trace: seq<InstanceState>): nat {
    if |trace| < 2 then 0
    else
      Resumptions(trace[..|trace| - 1])
      + if trace[|trace| - 2] == InBackoff && trace[|trace| - 1] == Running then 1 else 0
  }

  lemma ResumptionsAppend(trace: seq<InstanceState>, next: InstanceState)
    requires trace != []
    ensures Resumptions(trace + [next])
            == Resumptions(trace) + if trace[|trace| - 1] == InBackoff && next == Running then 1 else 0
  {
    assert (trace + [next])[..|trace|] == trace;
  }

  function Message(r: RunResult): string
    requires Fails(r)
  {
    if r.Error? then r.message else "panic: " + r.value
  }

  class Instance {
    var state: InstanceState
    var restarts: nat
    var lastError: string
    var lastErrorAt: Option<int>
    var done: bool
    ghost var trace: seq<InstanceState>

    ghost predicate Valid()
      reads this
    {
      && WellShaped(trace)
      && state == trace[|trace| - 1]
    }

    /** The status carries this turn's failure. */
    ghost predicate LastFailure(t: Turn)
      reads this
    {
      && lastErrorAt == Some(t.at)
      && match t.result
         case Error(message) => lastError == message
         case Panic(value) => lastError == "panic: " + value
         case _ => false
    }

    constructor ()
      ensures Valid() && trace == [Starting] && restarts == 0 && lastErrorAt.None? && lastError == "" && !done
    {
      state, restarts, lastError, lastErrorAt, done := Starting, 0, "", None, false;
      trace := [Starting];
    }

    method SetState(next: InstanceState, err: Option<string>, now: int)
      requires Valid() && Follows(state, next) && (err.Some? <==> next == InBackoff)
      modifies this`state, this`lastError, this`lastErrorAt, this`trace
      ensures Valid() && state == next && trace == old(trace) + [next]
      ensures Resumptions(trace)
              == Resumptions(old(trace)) + if old(state) == InBackoff && next == Running then 1 else 0
      ensures err.None? ==> lastError == old(lastError) && lastErrorAt == old(lastErrorAt)
      ensures err.Some? ==> lastError == err.value && lastErrorAt == Some(now)
    {
      state := next;
      ResumptionsAppend(trace, next);
      WellShapedAppend(trace, next);
      trace := trace + [next];
      if err.Some? {
        lastError := err.value;
        lastErrorAt := Some(now);
      }
    }

    /** The rest of a loop turn after a failed run: report it, wait, and start again unless the
        context is cancelled during the wait. */
    method BackOff(turn: Turn, delay: int) returns (nextDelay: int)
      requires Valid() && state == Running && !done && Fails(turn.result)
      modifies this
      ensures Valid() && LastFailure(turn)
      ensures done == turn.cancelledInBackoff
      ensures state == if done then Stopped else Running
      ensures restarts - old(restarts) == Resumptions(trace) - Resumptions(old(trace)) == if done then 0 else 1
      ensures !done ==> nextDelay == NextDelay(delay, MAX_DELAY)
    {
      nextDelay := delay;
      SetState(InBackoff, Some(Message(turn.result)), turn.at);
      if turn.cancelledInBackoff {
        SetState(Stopped, None, turn.at);
        done := true;
        return;
      }
      restarts := restarts + 1;
      if delay < MAX_DELAY {
        nextDelay := Wrap(delay * 2);
        if nextDelay > MAX_DELAY {
          nextDelay := MAX_DELAY;
        }
      }
      SetState(Running, None, turn.at);
    }

    /** Runs the connector over the script of turns. It returns when the supervisor does, or
        with the connector running again when the script is used up.
        `runs` is how many turns were played. */
    method Supervise(script: seq<Turn>) returns (runs: nat, waits: seq<int>)
      requires Valid() && trace == [Starting] && restarts == 0 && lastErrorAt.None? && !done
      modifies this
      ensures Valid() && runs <= |script|
      // every turn before the last one failed and was retried; the supervisor returned
      // exactly when the last turn ended it
      ensures forall i :: 0 <= i < runs - 1 ==> !Ends(script[i])
      ensures done <==> runs > 0 && (script[runs - 1].result.CleanExit? || script[runs - 1].result.ContextEnded?
                                     || script[runs - 1].cancelledInBackoff)
      ensures !done ==> runs == |script|
      ensures done <==> state == Stopped
      ensures !done ==> state == Running
      ensures restarts == Resumptions(trace) == if done then runs - 1 else runs
      ensures |waits| == if runs > 0 && !script[runs - 1].result.CleanExit? && !script[runs - 1].result.ContextEnded?
                         then runs else Max(0, runs - 1)
      ensures forall i :: 0 <= i < |waits| ==> waits[i] == RunningDelay(BASE_DELAY, MAX_DELAY, i + 1)
      // the status reports the last failure, if any run failed
      ensures |waits| <= |script|
      ensures forall i :: 0 <= i < |waits| ==> script[i].result.Error? || script[i].result.Panic?
      ensures lastErrorAt.Some? <==> |waits| > 0
      ensures |waits| > 0 ==> LastFailure(script[|waits| - 1])
    {
      var delay := BASE_DELAY;
      waits := [];
      runs := 0;
      SetState(Running, None, 0);
      while runs < |script|
        invariant 0 <= runs <= |script| && Valid() && !done && state == Running
        invariant forall i :: 0 <= i < runs ==> !Ends(script[i])
        invariant |waits| == runs == restarts == Resumptions(trace)
        invariant delay == RunningDelay(BASE_DELAY, MAX_DELAY, runs + 1)
        invariant forall i :: 0 <= i < runs ==> waits[i] == RunningDelay(BASE_DELAY, MAX_DELAY, i + 1)
        invariant runs > 0 ==> LastFailure(script[runs - 1])
        invariant runs == 0 ==> lastErrorAt.None?
      {
        var turn := script[runs];
        runs := runs + 1;
        if !Fails(turn.result) {
          SetState(Stopped, None, turn.at);
          done := true;
          return;
        }
        waits := waits + [delay];
        delay := BackOff(turn, delay);
        if done {
          return;
        }
      }
    }
  }

  /** The waits of Supervise are the promised schedule: 500ms, doubling, at most 30s. */
  lemma SupervisorSchedule(k: nat)
    requires k >= 1
    ensures RunningDelay(BASE_DELAY, MAX_DELAY, k) == Min(30_000_000_000, 500_000_000 * Pow2(k - 1))
  {
    RunningIsSchedule(BASE_DELAY, MAX_DELAY, k);
  }

  /** A well-shaped trace is starting, running, (backoff, running)*, optional backoff, stopped
      (or a prefix): running and backoff alternate, nothing follows stopped, and `failed`
      never appears. */
  lemma {:induction false} TraceShape(trace: seq<InstanceState>, i: nat)
    requires WellShaped(trace) && 0 < i < |trace|
    ensures trace[i] != Failed && trace[i] != Starting
    ensures trace[i] == Running ==> i % 2 == 1
    ensures trace[i] == InBackoff ==> i % 2 == 0
    ensures trace[i] == Stopped ==> i == |trace| - 1
    ensures i < |trace| - 1 ==> trace[i] == if i % 2 == 1 then Running else InBackoff
  {
    assert StepAt(trace, i - 1);
    if i > 1 {
      TraceShape(trace, i - 1);
    }
    if i < |trace| - 1 {
      assert StepAt(trace, i);
    }
  }
}
