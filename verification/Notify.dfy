/** Alert delivery with retries and dead-lettering: alerts/notify.go:84-192. The class is one
    notifier's delivery; DispatchProtocol.dfy runs many of them concurrently. */
module Notify {
  import opened Common
  import opened Backoff

  datatype Delivery = Sent | Permanent(reason: string) | Transient(reason: string)

  /** One attempt: what Deliver returned, whether the context was done when checked right
      after, and whether it was cancelled during the sleep that would follow. */
  datatype Try = Try(result: Delivery, contextDone: bool, cancelledInSleep: bool)

  datatype Fate = Delivered | DeadLettered | Abandoned

  datatype Row = Row(id: string, alertId: string, notifier: string, reason: string, attempts: int)

  /** Broken off without a retry being counted. */
  predicate BreaksEarly(t: Try) { t.result.Permanent? || (t.result.Transient? && t.contextDone) }

  /** Followed by a sleep that runs to its end. */
  predicate GoesOn(t: Try) { t.result.Transient? && !t.contextDone && !t.cancelledInSleep }

  /** How one notifier's delivery goes, told from what it meets: it is called again only after a
      transient failure outside a done context and a sleep to the end; its last call decides. */
  ghost predicate PlaysOut(maxAttempts: int, tries: seq<Try>, fate: Fate, calls: nat, retries: nat) {
    && 1 <= calls <= maxAttempts && calls <= |tries|
    && (forall i :: 0 <= i < calls - 1 ==>
          tries[i].result.Transient? && !tries[i].contextDone && !tries[i].cancelledInSleep)
    && var last := tries[calls - 1];
       match last.result
       case Sent => fate == Delivered && retries == calls - 1
       case Permanent(_) => fate == DeadLettered && retries == calls - 1
       case Transient(_) =>
         if last.contextDone then fate == DeadLettered && retries == calls - 1
         else if last.cancelledInSleep then fate == Abandoned && retries == calls
         else fate == DeadLettered && calls == maxAttempts && retries == calls
  }

  /** What a delivery meets determines it; whatever it would have met later does not matter. */
  lemma PlaysOutOneWay(maxAttempts: int, tries: seq<Try>, more: seq<Try>, fate: Fate, calls: nat, retries: nat,
                       fate': Fate, calls': nat, retries': nat)
    requires PlaysOut(maxAttempts, tries, fate, calls, retries)
    requires PlaysOut(maxAttempts, tries + more, fate', calls', retries')
    ensures fate == fate' && calls == calls' && retries == retries'
  {
    var all := tries + more;
    assert forall i :: 0 <= i < |tries| ==> all[i] == tries[i];
  }

  class Dispatcher {
    const maxAttempts: int
    const baseDelay: int
    const maxDelay: int
    const hasDlq: bool
    var delivered: nat
    var retried: nat
    var deadLet: nat
    var rows: seq<Row>

    constructor (maxAttempts: int, baseDelay: int, maxDelay: int, hasDlq: bool)
      ensures this.maxAttempts == Max(1, maxAttempts) && this.hasDlq == hasDlq
      ensures this.baseDelay == if baseDelay <= 0 then 1_000_000_000 else baseDelay
      ensures this.maxDelay == if maxDelay <= 0 then 30_000_000_000 else maxDelay
      ensures delivered == retried == deadLet == 0 && rows == []
    {
      this.maxAttempts := if maxAttempts <= 0 then 1 else maxAttempts;
      this.baseDelay := if baseDelay <= 0 then SECOND else baseDelay;
      this.maxDelay := if maxDelay <= 0 then 30 * SECOND else maxDelay;
      this.hasDlq := hasDlq;
      delivered, retried, deadLet, rows := 0, 0, 0, [];
    }

    /** The first attempt that does not go on decides the fate; running out of attempts
        dead-letters. A permanent failure is the last call. The row's attempt count is the
        configured maximum, whatever the number of calls. */
    method DeliverWithRetry(notifier: string, alertId: string, script: seq<Try>)
      returns (fate: Fate, calls: nat, waits: seq<int>)
      requires 1 <= maxAttempts <= |script| && Int64(baseDelay) && Int64(maxDelay)
      modifies this
      ensures PlaysOut(maxAttempts, script, fate, calls, |waits|)
      ensures delivered == old(delivered) + if fate.Delivered? then 1 else 0
      ensures deadLet == old(deadLet) + if fate.DeadLettered? then 1 else 0
      ensures retried == old(retried) + |waits|
      ensures forall i :: 0 <= i < |waits| ==> waits[i] == NotifyDelay(baseDelay, maxDelay, i + 1)
      ensures rows == old(rows) + if fate.DeadLettered? && hasDlq
                                  then [Row(alertId + ":" + notifier, alertId, notifier,
                                            script[calls - 1].result.reason, maxAttempts)]
                                  else []
    {
      waits := [];
      calls := 0;
      var lastErr := "";
      var attempt := 1;
      var broke := false;
      while attempt <= maxAttempts && !broke
        invariant 1 <= attempt <= maxAttempts + 1
        invariant calls == if broke then attempt else attempt - 1
        invariant broke ==> attempt <= maxAttempts && BreaksEarly(script[attempt - 1])
        invariant forall i :: 0 <= i < attempt - 1 ==> GoesOn(script[i])
        invariant calls > 0 ==> script[calls - 1].result.reason == lastErr
        invariant |waits| == attempt - 1 && retried == old(retried) + |waits|
        invariant forall i :: 0 <= i < |waits| ==> waits[i] == NotifyDelay(baseDelay, maxDelay, i + 1)
        invariant delivered == old(delivered) && deadLet == old(deadLet) && rows == old(rows)
        decreases maxAttempts - attempt, !broke
      {
        var t := script[attempt - 1];
        calls := calls + 1;
        if t.result.Sent? {
          delivered := delivered + 1;
          return Delivered, calls, waits;
        }
        lastErr := t.result.reason;
        if t.result.Permanent? || t.contextDone {
          broke := true;
        } else {
          retried := retried + 1;
          var delay := NotifyBackoff(baseDelay, maxDelay, attempt);
          waits := waits + [delay];
          if t.cancelledInSleep {
            return Abandoned, calls, waits;
          }
          attempt := attempt + 1;
        }
      }
      deadLet := deadLet + 1;
      if hasDlq {
        rows := rows + [Row(alertId + ":" + notifier, alertId, notifier, lastErr, maxAttempts)];
      }
      fate := DeadLettered;
    }
  }
}
