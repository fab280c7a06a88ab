/** The retrying fetch of sdk-go/sdkhttp/sdkhttp.go. */
module SdkHttp {
  import opened Common
  import opened Backoff

  datatype Reply =
    | BuildError          // http.NewRequestWithContext failed
    | TransportError
    | ReadError
    | Status(code: int, body: string)

  /** What the environment does to one attempt. `cancelled` is the context being done during
      the wait before it (the first attempt waits for nothing). */
  datatype Attempt = Attempt(cancelled: bool, reply: Reply)

  datatype Result =
    | Body(body: string)
    | Cancelled
    | BadRequest
    | HttpError(code: int)
    | GaveUp(attempts: int)

  predicate Success(code: int) { 200 <= code < 300 }

  /** Worth another attempt: no answer, an unreadable one, 429 or 5xx. */
  predicate Retryable(r: Reply) {
    r.TransportError? || r.ReadError? || (r.Status? && (r.code == 429 || r.code >= 500))
  }

  /** The result of a decisive attempt. */
  function Verdict(r: Reply): Result
    requires !Retryable(r)
  {
    match r
    case BuildError => BadRequest
    case Status(code, body) => if Success(code) then Body(body) else HttpError(code)
  }

  class Client {
    const maxRetries: int
    const baseDelay: int
    const maxDelay: int

    constructor (maxRetries: int, baseDelay: int, maxDelay: int)
      ensures this.maxRetries == maxRetries && this.baseDelay == baseDelay && this.maxDelay == maxDelay
    {
      this.maxRetries, this.baseDelay, this.maxDelay := maxRetries, baseDelay, maxDelay;
    }

    /** The first decisive attempt, or the first cancelled wait, decides; every earlier attempt
        was retryable and every wait is the running delay of its retry. */
    method Do(script: seq<Attempt>) returns (res: Result, waits: seq<int>)
      requires |script| == Max(0, maxRetries + 1)
      ensures forall i :: 0 <= i < |waits| ==> waits[i] == RunningDelay(baseDelay, maxDelay, i + 1)
      ensures |waits| <= Max(0, maxRetries)
      ensures forall i :: 0 <= i < |waits| && i < |script| ==> Retryable(script[i].reply)
      ensures forall i :: 1 <= i < |waits| ==> !script[i].cancelled
      // in terms of replies: what was retried, and what decided
      ensures forall i :: 0 <= i < |waits| && i < |script| ==>
                match script[i].reply
                case BuildError => false
                case Status(code, _) => code == 429 || code >= 500
                case _ => true
      ensures !res.GaveUp? && !res.Cancelled? ==>
                |waits| < |script| &&
                match script[|waits|].reply
                case BuildError => res == BadRequest
                case Status(code, body) =>
                  code != 429 && code < 500 && res == if 200 <= code <= 299 then Body(body) else HttpError(code)
                case _ => false
      ensures res.GaveUp? ==> res.attempts == maxRetries + 1 && |waits| == Max(0, maxRetries)
                              && forall i :: 0 <= i < |script| ==>
                                   Retryable(script[i].reply) && (i > 0 ==> !script[i].cancelled)
      ensures res.Cancelled? ==> 0 < |waits| < |script| && script[|waits|].cancelled
      ensures !res.GaveUp? && !res.Cancelled? ==>
                |waits| < |script| && !Retryable(script[|waits|].reply) && res == Verdict(script[|waits|].reply)
                && (|waits| > 0 ==> !script[|waits|].cancelled)
    {
      var delay := baseDelay;
      waits := [];
      var attempt := 0;
      while attempt <= maxRetries
        invariant 0 <= attempt <= |script|
        invariant |waits| == if attempt == 0 then 0 else attempt - 1
        invariant delay == RunningDelay(baseDelay, maxDelay, |waits| + 1)
        invariant forall i :: 0 <= i < |waits| ==> waits[i] == RunningDelay(baseDelay, maxDelay, i + 1)
        invariant forall i :: 0 <= i < attempt ==> Retryable(script[i].reply) && (i > 0 ==> !script[i].cancelled)
      {
        if attempt > 0 {
          waits := waits + [delay];
          if script[attempt].cancelled {
            return Cancelled, waits;
          }
          if delay < maxDelay {
            delay := Wrap(delay * 2);
            if delay > maxDelay {
              delay := maxDelay;
            }
          }
        }
        match script[attempt].reply {
          case BuildError =>
            return BadRequest, waits;
          case TransportError =>
          case ReadError =>
          case Status(code, body) =>
            if 200 <= code < 300 {
              return Body(body), waits;
            } else if code != 429 && code < 500 {
              return HttpError(code), waits;
            }
        }
        attempt := attempt + 1;
      }
      return GaveUp(maxRetries + 1), waits;
    }
  }
}
