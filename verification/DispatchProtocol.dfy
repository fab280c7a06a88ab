/** Dispatch: every notifier's delivery runs in its own goroutine and all of them add to the
    same atomic counters (alerts/notify.go:120-176). One step is one call returning, one
    counter update, or one sleep ending; a single cancellation reaches them all. */
module DispatchProtocol {
  import opened Common
  import opened Notify

  datatype Pc =
    | Calling(attempt: nat)
    | Checking(attempt: nat, result: Delivery)
    | Sleeping(attempt: nat)
    | Burying
    | Finished(fate: Fate)

  /** History: the calls returned, what each of them and the sleep after it met, and how often
      this worker has added to the `retried` counter. */
  datatype Worker = Worker(pc: Pc, calls: nat, tries: seq<Try>, retries: nat)

  datatype State = State(
    maxAttempts: nat, workers: seq<Worker>, cancelled: bool,
    delivered: nat, retried: nat, deadLet: nat)

  datatype Step =
    | Cancel
    | Return(i: nat, result: Delivery)
    | Count(i: nat)
    | Timer(i: nat)
    | GiveUpSleeping(i: nat)
    | Bury(i: nat)

  const FRESH: Worker := Worker(Calling(1), 0, [], 0)

  function Init(maxAttempts: nat, notifiers: nat): State {
    State(maxAttempts, seq(notifiers, i => FRESH), false, 0, 0, 0)
  }

  predicate CanMove(s: State, w: Worker, step: Step)
    requires !step.Cancel?
  {
    match step
    case Return(_, _) => w.pc.Calling?
    case Count(_) => w.pc.Checking?
    case Timer(_) => w.pc.Sleeping?
    case GiveUpSleeping(_) => w.pc.Sleeping? && s.cancelled
    case Bury(_) => w.pc.Burying?
  }

  predicate Enabled(s: State, step: Step) {
    match step
    case Cancel => true
    case _ => step.i < |s.workers| && CanMove(s, s.workers[step.i], step)
  }

  /** The last sleep was cut short. */
  function GivenUp(tries: seq<Try>): seq<Try> {
    if tries == [] then [] else tries[|tries| - 1 := tries[|tries| - 1].(cancelledInSleep := true)]
  }

  /** What a step does to its worker. */
  function Moved(s: State, w: Worker, step: Step): Worker
    requires !step.Cancel? && CanMove(s, w, step)
  {
    match step
    case Return(_, result) => w.(pc := Checking(w.pc.attempt, result), calls := w.calls + 1)
    case Count(_) =>
      var t := Try(w.pc.result, s.cancelled, false);
      var seen := w.(tries := w.tries + [t]);
      if t.result.Sent? then seen.(pc := Finished(Delivered))
      else if BreaksEarly(t) then seen.(pc := Burying)
      else seen.(pc := Sleeping(w.pc.attempt), retries := w.retries + 1)
    case Timer(_) => w.(pc := if w.pc.attempt < s.maxAttempts then Calling(w.pc.attempt + 1) else Burying)
    case GiveUpSleeping(_) => w.(pc := Finished(Abandoned), tries := GivenUp(w.tries))
    case Bury(_) => w.(pc := Finished(DeadLettered))
  }

  function Apply(s: State, step: Step): State
    requires Enabled(s, step)
  {
    if step.Cancel? then s.(cancelled := true)
    else
      var w := s.workers[step.i];
      var w' := Moved(s, w, step);
      var s' := s.(workers := s.workers[step.i := w']);
      if step.Count? && w'.pc == Finished(Delivered) then s'.(delivered := s.delivered + 1)
      else if step.Count? && w'.pc.Sleeping? then s'.(retried := s.retried + 1)
      else if step.Bury? then s'.(deadLet := s.deadLet + 1)
      else s'
  }

  predicate ValidRun(s: State, steps: seq<Step>)
    decreases steps
  {
    steps == [] || (Enabled(s, steps[0]) && ValidRun(Apply(s, steps[0]), steps[1..]))
  }

  function Final(s: State, steps: seq<Step>): State
    requires ValidRun(s, steps)
    decreases steps
  {
    if steps == [] then s else Final(Apply(s, steps[0]), steps[1..])
  }

  // ------------------------------------------------------------------
  // Counting over workers
  // ------------------------------------------------------------------

  function Sum(f: Worker -> int, ws: seq<Worker>): int {
    if ws == [] then 0 else Sum(f, ws[..|ws| - 1]) + f(ws[|ws| - 1])
  }

  lemma {:induction false} SumUpdate(f: Worker -> int, ws: seq<Worker>, i: nat, w: Worker)
    requires i < |ws|
    ensures Sum(f, ws[i := w]) == Sum(f, ws) - f(ws[i]) + f(w)
  {
    var n := |ws| - 1;
    if i < n {
      assert ws[i := w][..n] == ws[..n][i := w];
      SumUpdate(f, ws[..n], i, w);
    } else {
      assert ws[i := w][..n] == ws[..n];
    }
  }

  function One(b: bool): int { if b then 1 else 0 }
  function IsDelivered(w: Worker): int { One(w.pc == Finished(Delivered)) }
  function IsDead(w: Worker): int { One(w.pc == Finished(DeadLettered)) }
  function IsAbandoned(w: Worker): int { One(w.pc == Finished(Abandoned)) }
  /** Broken off: the last failure was permanent or found the context done. */
  predicate Early(w: Worker) {
    w.tries != [] &&
    var last := w.tries[|w.tries| - 1];
    last.result.Permanent? || (last.result.Transient? && last.contextDone)
  }

  function IsEarly(w: Worker): int { One(Early(w)) }
  function IsExhausted(w: Worker): int { One(w.pc == Finished(DeadLettered) && !Early(w)) }
  function Calls(w: Worker): int { w.calls }
  function Retries(w: Worker): int { w.retries }

  /** Every try so far was a transient failure with a sleep to the end. */
  predicate AllGoOn(tries: seq<Try>) {
    forall i :: 0 <= i < |tries| ==>
      tries[i].result.Transient? && !tries[i].contextDone && !tries[i].cancelledInSleep
  }

  ghost predicate WorkerOk(w: Worker, maxAttempts: nat) {
    match w.pc
    case Calling(a) =>
      1 <= a <= maxAttempts && w.calls == a - 1 == |w.tries| == w.retries && AllGoOn(w.tries)
    case Checking(a, result) =>
      1 <= a <= maxAttempts && w.calls == a && |w.tries| == a - 1 == w.retries && AllGoOn(w.tries)
    case Sleeping(a) =>
      1 <= a <= maxAttempts && w.calls == a == |w.tries| == w.retries && AllGoOn(w.tries)
    case Burying => w.calls == |w.tries| && PlaysOut(maxAttempts, w.tries, DeadLettered, w.calls, w.retries)
    case Finished(fate) => w.calls == |w.tries| && PlaysOut(maxAttempts, w.tries, fate, w.calls, w.retries)
  }

  ghost predicate Inv(s: State) {
    && s.maxAttempts >= 1
    && (forall i :: 0 <= i < |s.workers| ==> WorkerOk(s.workers[i], s.maxAttempts))
    && s.delivered == Sum(IsDelivered, s.workers)
    && s.deadLet == Sum(IsDead, s.workers)
    && s.retried == Sum(Retries, s.workers)
  }

  /** A move keeps its worker in order and adds to the totals what it adds to the counters. */
  lemma MoveKeepsWorker(s: State, w: Worker, step: Step)
    requires !step.Cancel? && CanMove(s, w, step)
    requires WorkerOk(w, s.maxAttempts)
    ensures var w' := Moved(s, w, step);
            && WorkerOk(w', s.maxAttempts)
            && IsDelivered(w') == IsDelivered(w) + One(step.Count? && w'.pc == Finished(Delivered))
            && IsDead(w') == IsDead(w) + One(step.Bury?)
            && Retries(w') == Retries(w) + One(step.Count? && w'.pc.Sleeping?)
  {
  }

  lemma MoveKeepsSums(s: State, step: Step, s': State)
    requires !step.Cancel? && Enabled(s, step) && WorkerOk(s.workers[step.i], s.maxAttempts) && s' == Apply(s, step)
    ensures s'.maxAttempts == s.maxAttempts && |s'.workers| == |s.workers|
    ensures WorkerOk(s'.workers[step.i], s.maxAttempts)
    ensures forall k :: 0 <= k < |s.workers| && k != step.i ==> s'.workers[k] == s.workers[k]
    ensures s'.delivered - s.delivered == Sum(IsDelivered, s'.workers) - Sum(IsDelivered, s.workers)
    ensures s'.deadLet - s.deadLet == Sum(IsDead, s'.workers) - Sum(IsDead, s.workers)
    ensures s'.retried - s.retried == Sum(Retries, s'.workers) - Sum(Retries, s.workers)
  {
    var w' := Moved(s, s.workers[step.i], step);
    MoveKeepsWorker(s, s.workers[step.i], step);
    SumUpdate(IsDelivered, s.workers, step.i, w');
    SumUpdate(IsDead, s.workers, step.i, w');
    SumUpdate(Retries, s.workers, step.i, w');
  }

  lemma StepKeepsInv(s: State, step: Step)
    requires Inv(s) && Enabled(s, step)
    ensures Inv(Apply(s, step))
    ensures |Apply(s, step).workers| == |s.workers|
  {
    if !step.Cancel? {
      var s' := Apply(s, step);
      MoveKeepsSums(s, step, s');
      forall k | 0 <= k < |s'.workers|
        ensures WorkerOk(s'.workers[k], s.maxAttempts)
      {
      }
    }
  }

  lemma {:induction false} InitSums(f: Worker -> int, n: nat)
    requires f(FRESH) == 0
    ensures Sum(f, seq(n, i => FRESH)) == 0
  {
    if n == 0 {
    } else {
      InitSums(f, n - 1);
      var w := FRESH;
      assert seq(n, i => w)[..n - 1] == seq(n - 1, i => w);
    }
  }

  lemma InitHasInv(maxAttempts: nat, notifiers: nat)
    requires maxAttempts >= 1
    ensures Inv(Init(maxAttempts, notifiers))
  {
    InitSums(IsDelivered, notifiers);
    InitSums(IsDead, notifiers);
    InitSums(Retries, notifiers);
  }

  lemma {:induction false} RunKeepsInv(s: State, steps: seq<Step>)
    requires Inv(s) && ValidRun(s, steps)
    ensures Inv(Final(s, steps)) && |Final(s, steps).workers| == |s.workers|
    ensures Final(s, steps).maxAttempts == s.maxAttempts
    decreases steps
  {
    if steps == [] {
    } else {
      StepKeepsInv(s, steps[0]);
      RunKeepsInv(Apply(s, steps[0]), steps[1..]);
    }
  }

  predicate AllFinished(ws: seq<Worker>) { forall i :: 0 <= i < |ws| ==> ws[i].pc.Finished? }

  lemma {:induction false} FinishedTotals(ws: seq<Worker>, maxAttempts: nat)
    requires AllFinished(ws) && forall i :: 0 <= i < |ws| ==> WorkerOk(ws[i], maxAttempts)
    ensures Sum(IsDelivered, ws) + Sum(IsDead, ws) + Sum(IsAbandoned, ws) == |ws|
    ensures Sum(Calls, ws) == Sum(IsDelivered, ws) + Sum(Retries, ws) + Sum(IsEarly, ws)
    ensures Sum(Retries, ws) == Sum(Calls, ws) - |ws| + Sum(IsAbandoned, ws) + Sum(IsExhausted, ws)
  {
    if ws == [] {
    } else {
      var n := |ws| - 1;
      assert WorkerOk(ws[n], maxAttempts) && ws[n].pc.Finished?;
      FinishedTotals(ws[..n], maxAttempts);
    }
  }

  /** Under every interleaving, when all deliveries have finished: each notifier was called
      between 1 and MaxAttempts times and met one fate; the fates add up to the notifiers;
      the calls are the deliveries, the counted retries and the early breaks; and the
      `retried` counter exceeds the real retries (calls beyond each notifier's first) by the
      abandoned and the exhausted deliveries, whose last failure is counted too. */
  lemma DispatchAccounting(maxAttempts: nat, notifiers: nat, steps: seq<Step>)
    requires maxAttempts >= 1 && ValidRun(Init(maxAttempts, notifiers), steps)
    requires AllFinished(Final(Init(maxAttempts, notifiers), steps).workers)
    ensures var s := Final(Init(maxAttempts, notifiers), steps);
            && |s.workers| == notifiers
            && (forall i :: 0 <= i < notifiers ==> 1 <= s.workers[i].calls <= maxAttempts)
            && s.delivered + s.deadLet + Sum(IsAbandoned, s.workers) == notifiers
            && Sum(Calls, s.workers) == s.delivered + s.retried + Sum(IsEarly, s.workers)
            && s.retried
               == (Sum(Calls, s.workers) - notifiers) + Sum(IsAbandoned, s.workers) + Sum(IsExhausted, s.workers)
  {
    var s := Final(Init(maxAttempts, notifiers), steps);
    InitHasInv(maxAttempts, notifiers);
    RunKeepsInv(Init(maxAttempts, notifiers), steps);
    FinishedTotals(s.workers, maxAttempts);
    forall i | 0 <= i < notifiers
      ensures 1 <= s.workers[i].calls <= maxAttempts
    {
      assert WorkerOk(s.workers[i], maxAttempts);
    }
  }

  /** Each goroutine's delivery is one that DeliverWithRetry makes: when it has finished, what it
      met plays out to its fate, its calls and its share of the `retried` counter. */
  lemma WorkersPlayOut(maxAttempts: nat, notifiers: nat, steps: seq<Step>, i: nat)
    requires maxAttempts >= 1 && ValidRun(Init(maxAttempts, notifiers), steps) && i < notifiers
    ensures i < |Final(Init(maxAttempts, notifiers), steps).workers|
    ensures var w := Final(Init(maxAttempts, notifiers), steps).workers[i];
            w.pc.Finished? ==>
              w.calls == |w.tries| && PlaysOut(maxAttempts, w.tries, w.pc.fate, w.calls, w.retries)
  {
    InitHasInv(maxAttempts, notifiers);
    RunKeepsInv(Init(maxAttempts, notifiers), steps);
    var s := Final(Init(maxAttempts, notifiers), steps);
    assert WorkerOk(s.workers[i], maxAttempts);
  }

  /** The check after a call: a delivery is counted; a permanent failure, or any failure once the
      context is done, breaks off without a retry; any other failure counts one and sleeps. */
  lemma CheckAfterCall(s: State, i: nat, s': State)
    requires Enabled(s, Count(i)) && s' == Apply(s, Count(i))
    ensures var result, pc := s.workers[i].pc.result, s'.workers[i].pc;
            && (result.Sent? ==> pc == Finished(Delivered))
            && (result.Permanent? || (result.Transient? && s.cancelled) ==> pc == Burying)
            && (result.Transient? && !s.cancelled ==> pc == Sleeping(s.workers[i].pc.attempt))
            && s'.delivered == s.delivered + One(result.Sent?)
            && s'.retried == s.retried + One(result.Transient? && !s.cancelled)
            && s'.deadLet == s.deadLet
            && s'.workers[i].tries == s.workers[i].tries + [Try(result, s.cancelled, false)]
  {
  }

  /** A call has failed for good: permanently, or with the context done. */
  predicate FailedForGood(s: State, w: Worker) {
    w.pc.Checking? && (w.pc.result.Permanent? || (w.pc.result.Transient? && s.cancelled))
  }

  /** From then on, whatever the others do, the notifier is not called again, never sleeps, and
      can only be dead-lettered. */
  lemma {:induction false} FailureForGoodIsFinal(s: State, steps: seq<Step>, i: nat)
    requires ValidRun(s, steps) && i < |s.workers|
    requires FailedForGood(s, s.workers[i]) || s.workers[i].pc == Burying
             || s.workers[i].pc == Finished(DeadLettered)
    ensures |Final(s, steps).workers| == |s.workers| && Final(s, steps).workers[i].calls == s.workers[i].calls
    ensures var w := Final(s, steps).workers[i];
            FailedForGood(Final(s, steps), w) || w.pc == Burying || w.pc == Finished(DeadLettered)
    decreases steps
  {
    if steps == [] {
    } else {
      FailureForGoodIsFinal(Apply(s, steps[0]), steps[1..], i);
    }
  }

  /** A permanent error is never retried: in every reachable state a notifier that returned one
      is not called again, and can only end in the dead-letter store. */
  lemma PermanentIsFinal(maxAttempts: nat, notifiers: nat, steps: seq<Step>, i: nat, k: nat)
    requires maxAttempts >= 1 && ValidRun(Init(maxAttempts, notifiers), steps)
    requires i < notifiers
    ensures i < |Final(Init(maxAttempts, notifiers), steps).workers|
    ensures var w := Final(Init(maxAttempts, notifiers), steps).workers[i];
            k < |w.tries| && w.tries[k].result.Permanent? ==>
              k == w.calls - 1 && (w.pc == Burying || w.pc == Finished(DeadLettered))
  {
    InitHasInv(maxAttempts, notifiers);
    RunKeepsInv(Init(maxAttempts, notifiers), steps);
    var s := Final(Init(maxAttempts, notifiers), steps);
    assert WorkerOk(s.workers[i], maxAttempts);
  }
}
