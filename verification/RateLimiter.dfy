/** The per-IP token bucket of httpapi/ratelimit.go, with its garbage collector.
    The theorems say what a caller can observe: forgetting idle buckets, calls by
    other addresses and refused calls never change a decision. */
module RateLimiter {
  import opened Common

  const GC_EVERY: nat := 100
  const IDLE_CUT: int := 5 * MINUTE

  datatype Bucket = Bucket(tokens: real, lastFill: int)

  datatype Decision = Admitted | Refused(retryAfter: int)

  /** Tokens that flow in over `ns` nanoseconds: rpm per minute. */
  function Accrued(rpm: nat, ns: int): real {
    (ns as real / 1000000000.0) * rpm as real / 60.0
  }

  function Capped(rpm: nat, tokens: real): real {
    if tokens > rpm as real then rpm as real else tokens
  }

  function Refill(rpm: nat, b: Bucket, now: int): Bucket {
    Bucket(Capped(rpm, b.tokens + Accrued(rpm, now - b.lastFill)), now)
  }

  /** The true wait for a token, in seconds. */
  function TrueWait(rpm: nat, tokens: real): real
    requires rpm > 0
  {
    (1.0 - tokens) * 60.0 / rpm as real
  }

  function RetryAfter(rpm: nat, tokens: real): int
    requires rpm > 0
  {
    Max(1, TrueWait(rpm, tokens).Floor)
  }

  function Decide(rpm: nat, tokens: real): Decision
    requires rpm > 0
  {
    if tokens < 1.0 then Refused(RetryAfter(rpm, tokens)) else Admitted
  }

  function Spend(tokens: real): real { if tokens < 1.0 then tokens else tokens - 1.0 }

  // ------------------------------------------------------------------
  // The limiter as a value, and one call as a function on it
  // ------------------------------------------------------------------

  datatype Limiter = Limiter(rpm: nat, buckets: map<string, Bucket>, calls: nat)

  /** One call. `gcNow` is the clock reading inside gcLocked, `now` the later one in allow. */
  datatype Call = Call(ip: string, gcNow: int, now: int)

  function Gc(buckets: map<string, Bucket>, cut: int): map<string, Bucket> {
    map ip | ip in buckets && !(buckets[ip].lastFill < cut) :: buckets[ip]
  }

  function Collect(s: Limiter, gc: bool, gcNow: int): Limiter {
    s.(calls := s.calls + 1,
       buckets := if gc && (s.calls + 1) % GC_EVERY == 0 then Gc(s.buckets, gcNow - IDLE_CUT) else s.buckets)
  }

  /** The bucket `ip` would hold after refilling at time t; a missing bucket is a full one. */
  function Filled(s: Limiter, ip: string, t: int): Bucket {
    Refill(s.rpm, if ip in s.buckets then s.buckets[ip] else Bucket(s.rpm as real, t), t)
  }

  function Level(s: Limiter, ip: string, t: int): real { Filled(s, ip, t).tokens }

  function Serve(s: Limiter, c: Call): Limiter {
    s.(buckets := s.buckets[c.ip := Bucket(Spend(Level(s, c.ip, c.now)), c.now)])
  }

  function Next(s: Limiter, gc: bool, c: Call): Limiter {
    Serve(Collect(s, gc, c.gcNow), c)
  }

  function Outcome(s: Limiter, gc: bool, c: Call): Decision
    requires s.rpm > 0
  {
    Decide(s.rpm, Level(Collect(s, gc, c.gcNow), c.ip, c.now))
  }

  /** All decisions of a run; `gc == false` is the limiter that never forgets. */
  function Run(s: Limiter, gc: bool, calls: seq<Call>): seq<Decision>
    requires s.rpm > 0
    decreases calls
  {
    if calls == [] then [] else [Outcome(s, gc, calls[0])] + Run(Next(s, gc, calls[0]), gc, calls[1..])
  }

  /** The clock never runs backwards. */
  predicate Monotone(calls: seq<Call>, t: int) {
    calls == [] || (t <= calls[0].gcNow <= calls[0].now && Monotone(calls[1..], calls[0].now))
  }

  ghost predicate Valid(s: Limiter, t: int) {
    && s.rpm > 0
    && forall ip <- s.buckets :: 0.0 <= s.buckets[ip].tokens <= s.rpm as real && s.buckets[ip].lastFill <= t
  }

  // ------------------------------------------------------------------
  // The class
  // ------------------------------------------------------------------

  class TokenBuckets {
    const rpm: nat
    const gcEvery: nat
    var buckets: map<string, Bucket>
    var calls: nat

    ghost function View(): Limiter
      reads this
    {
      Limiter(rpm, buckets, calls)
    }

    constructor (requested: int)
      ensures gcEvery == GC_EVERY == 100
      ensures View() == Limiter(if requested <= 0 then 10 else requested, map[], 0)
    {
      rpm := if requested <= 0 then 10 else requested;
      gcEvery := GC_EVERY;
      buckets := map[];
      calls := 0;
    }

    method Allow(ip: string, gcNow: int, now: int) returns (d: Decision)
      requires rpm > 0 && gcEvery == GC_EVERY
      modifies this
      ensures d == Outcome(old(View()), true, Call(ip, gcNow, now))
      ensures View() == Next(old(View()), true, Call(ip, gcNow, now))
    {
      calls := calls + 1;
      if calls % gcEvery == 0 {
        GcLocked(gcNow);
      }
      assert View() == Collect(old(View()), true, gcNow);
      var b := Bucket(rpm as real, now);
      if ip in buckets {
        b := buckets[ip];
      }
      var elapsed := (now - b.lastFill) as real / 1000000000.0;
      b := b.(tokens := b.tokens + elapsed * rpm as real / 60.0);
      if b.tokens > rpm as real {
        b := b.(tokens := rpm as real);
      }
      b := b.(lastFill := now);
      assert b == Filled(Collect(old(View()), true, gcNow), ip, now);
      if b.tokens < 1.0 {
        buckets := buckets[ip := b];
        var retry := ((1.0 - b.tokens) * 60.0 / rpm as real).Floor;
        if retry < 1 {
          retry := 1;
        }
        return Refused(retry);
      }
      b := b.(tokens := b.tokens - 1.0);
      buckets := buckets[ip := b];
      return Admitted;
    }

    method GcLocked(now: int)
      modifies this`buckets
      ensures buckets == Gc(old(buckets), now - IDLE_CUT)
    {
      var cut := now - IDLE_CUT;
      var todo := buckets.Keys;
      while todo != {}
        invariant todo <= old(buckets).Keys
        invariant forall ip <- buckets :: ip in old(buckets) && buckets[ip] == old(buckets)[ip]
        invariant forall ip <- old(buckets) ::
                    ip in buckets <==> (ip in todo || !(old(buckets)[ip].lastFill < cut))
        decreases |todo|
      {
        var ip :| ip in todo;
        todo := todo - {ip};
        if buckets[ip].lastFill < cut {
          buckets := buckets - {ip};
        }
      }
    }
  }

  // ------------------------------------------------------------------
  // Arithmetic of refilling
  // ------------------------------------------------------------------

  lemma AccruedFacts(rpm: nat, a: int, b: int)
    ensures Accrued(rpm, a + b) == Accrued(rpm, a) + Accrued(rpm, b)
    ensures a >= 0 ==> Accrued(rpm, a) >= 0.0
    ensures a >= MINUTE ==> Accrued(rpm, a) >= rpm as real
  {
    var r := rpm as real;
    var x, y := a as real / 1000000000.0, b as real / 1000000000.0;
    assert (a + b) as real / 1000000000.0 == x + y;
    assert (x + y) * r == x * r + y * r;
    if a >= 0 {
      assert x * r >= 0.0;
    }
    if a >= MINUTE {
      assert x >= 60.0;
      assert x * r >= 60.0 * r;
    }
  }

  /** Refilling in two steps is refilling once: what makes refused calls free. */
  lemma RefillTwice(rpm: nat, b: Bucket, t1: int, t2: int)
    requires b.lastFill <= t1 <= t2
    ensures Refill(rpm, Refill(rpm, b, t1), t2) == Refill(rpm, b, t2)
  {
    AccruedFacts(rpm, t1 - b.lastFill, t2 - t1);
    AccruedFacts(rpm, t2 - t1, 0);
    assert (t1 - b.lastFill) + (t2 - t1) == t2 - b.lastFill;
  }

  /** An idle bucket is as good as a fresh one. */
  lemma IdleIsFull(rpm: nat, b: Bucket, t: int)
    requires b.tokens >= 0.0 && b.lastFill + MINUTE <= t
    ensures Refill(rpm, b, t).tokens == rpm as real
  {
    AccruedFacts(rpm, t - b.lastFill, 0);
  }

  lemma LevelBounds(s: Limiter, ip: string, t: int)
    requires Valid(s, t)
    ensures 0.0 <= Level(s, ip, t) <= s.rpm as real
  {
    if ip in s.buckets {
      AccruedFacts(s.rpm, t - s.buckets[ip].lastFill, 0);
    } else {
      AccruedFacts(s.rpm, 0, 0);
    }
  }

  lemma LevelGrows(s: Limiter, ip: string, t1: int, t2: int)
    requires Valid(s, t1) && t1 <= t2
    ensures Level(s, ip, t2) <= Level(s, ip, t1) + Accrued(s.rpm, t2 - t1)
  {
    AccruedFacts(s.rpm, t2 - t1, 0);
    AccruedFacts(s.rpm, 0, 0);
    if ip in s.buckets {
      var b := s.buckets[ip];
      AccruedFacts(s.rpm, t1 - b.lastFill, t2 - t1);
      assert (t1 - b.lastFill) + (t2 - t1) == t2 - b.lastFill;
    }
  }

  // ------------------------------------------------------------------
  // One step
  // ------------------------------------------------------------------

  /** Dropping idle buckets changes nobody's level, now or later. */
  lemma CollectKeepsLevels(s: Limiter, gc: bool, gcNow: int, ip: string, t: int)
    requires Valid(s, gcNow) && gcNow <= t
    ensures Valid(Collect(s, gc, gcNow), gcNow)
    ensures Level(Collect(s, gc, gcNow), ip, t) == Level(s, ip, t)
  {
    var s' := Collect(s, gc, gcNow);
    if ip in s.buckets && ip !in s'.buckets {
      IdleIsFull(s.rpm, s.buckets[ip], t);
      AccruedFacts(s.rpm, 0, 0);
    }
  }

  lemma NextFacts(s: Limiter, gc: bool, c: Call)
    requires Valid(s, c.gcNow) && c.gcNow <= c.now
    ensures Valid(Next(s, gc, c), c.now)
    ensures Next(s, gc, c).rpm == s.rpm
    ensures Outcome(s, gc, c) == Decide(s.rpm, Level(s, c.ip, c.now))
    ensures c.ip in Next(s, gc, c).buckets
    ensures Next(s, gc, c).buckets[c.ip] == Bucket(Spend(Level(s, c.ip, c.now)), c.now)
  {
    CollectKeepsLevels(s, gc, c.gcNow, c.ip, c.now);
    LevelBounds(s, c.ip, c.now);
  }

  lemma NextLevelOther(s: Limiter, gc: bool, c: Call, ip: string, t: int)
    requires Valid(s, c.gcNow) && c.gcNow <= c.now <= t && ip != c.ip
    ensures Level(Next(s, gc, c), ip, t) == Level(s, ip, t)
  {
    CollectKeepsLevels(s, gc, c.gcNow, ip, t);
  }

  // ------------------------------------------------------------------
  // Whole runs: levels are all that can be observed
  // ------------------------------------------------------------------

  ghost predicate SameLevels(a: Limiter, b: Limiter, t0: int) {
    a.rpm == b.rpm && forall ip: string, t: int :: t0 <= t ==> Level(a, ip, t) == Level(b, ip, t)
  }

  lemma SameLevelsStep(a: Limiter, b: Limiter, ga: bool, gb: bool, c: Call, t0: int)
    requires Valid(a, t0) && Valid(b, t0) && SameLevels(a, b, t0) && t0 <= c.gcNow <= c.now
    ensures Outcome(a, ga, c) == Outcome(b, gb, c)
    ensures SameLevels(Next(a, ga, c), Next(b, gb, c), c.now)
  {
    NextFacts(a, ga, c);
    NextFacts(b, gb, c);
    var a', b' := Next(a, ga, c), Next(b, gb, c);
    assert Level(a, c.ip, c.now) == Level(b, c.ip, c.now);
    forall ip: string, t: int | c.now <= t
      ensures Level(a', ip, t) == Level(b', ip, t)
    {
      if ip != c.ip {
        NextLevelOther(a, ga, c, ip, t);
        NextLevelOther(b, gb, c, ip, t);
        assert Level(a, ip, t) == Level(b, ip, t);
      }
    }
  }

  /** Limiters with equal levels are indistinguishable, whether or not either collects garbage. */
  lemma {:induction false} LevelsDecide(a: Limiter, b: Limiter, ga: bool, gb: bool, calls: seq<Call>, t0: int)
    requires Valid(a, t0) && Valid(b, t0) && SameLevels(a, b, t0) && Monotone(calls, t0)
    ensures Run(a, ga, calls) == Run(b, gb, calls)
    decreases calls
  {
    if calls == [] {
    } else {
      var c := calls[0];
      SameLevelsStep(a, b, ga, gb, c, t0);
      NextFacts(a, ga, c);
      NextFacts(b, gb, c);
      LevelsDecide(Next(a, ga, c), Next(b, gb, c), ga, gb, calls[1..], c.now);
    }
  }

  /** Garbage collection is unobservable. */
  lemma GcUnobservable(s: Limiter, calls: seq<Call>, t0: int)
    requires Valid(s, t0) && Monotone(calls, t0)
    ensures Run(s, true, calls) == Run(s, false, calls)
  {
    LevelsDecide(s, s, true, false, calls, t0);
  }

  /** A refused call is free: striking it from the run changes no later decision. */
  lemma RefusedCallsAreFree(s: Limiter, gc: bool, c: Call, rest: seq<Call>)
    requires Valid(s, c.gcNow) && c.gcNow <= c.now && Monotone(rest, c.now)
    requires Outcome(s, gc, c).Refused?
    ensures Run(Next(s, gc, c), gc, rest) == Run(s, gc, rest)
  {
    var s' := Next(s, gc, c);
    NextFacts(s, gc, c);
    forall ip: string, t: int | c.now <= t
      ensures Level(s', ip, t) == Level(s, ip, t)
    {
      if ip != c.ip {
        NextLevelOther(s, gc, c, ip, t);
      } else {
        var b := if ip in s.buckets then s.buckets[ip] else Bucket(s.rpm as real, c.now);
        AccruedFacts(s.rpm, 0, 0);
        AccruedFacts(s.rpm, t - c.now, 0);
        RefillTwice(s.rpm, b, c.now, t);
      }
    }
    LevelsDecide(s', s, gc, gc, rest, c.now);
  }

  function Of(calls: seq<Call>, ip: string): seq<Call> {
    if calls == [] then []
    else (if calls[0].ip == ip then [calls[0]] else []) + Of(calls[1..], ip)
  }

  /** The decisions of a run that were given to `ip`. */
  function DecisionsFor(s: Limiter, gc: bool, calls: seq<Call>, ip: string): seq<Decision>
    requires s.rpm > 0
    decreases calls
  {
    if calls == [] then []
    else (if calls[0].ip == ip then [Outcome(s, gc, calls[0])] else [])
         + DecisionsFor(Next(s, gc, calls[0]), gc, calls[1..], ip)
  }

  ghost predicate SameLevelOf(a: Limiter, b: Limiter, ip: string, t0: int) {
    a.rpm == b.rpm && forall t: int :: t0 <= t ==> Level(a, ip, t) == Level(b, ip, t)
  }

  /** Calls from other addresses never change an address's decisions: it sees the run in
      which only its own calls were made, on a limiter that never forgets. */
  lemma {:induction false} OthersDoNotMatter(a: Limiter, b: Limiter, gc: bool, calls: seq<Call>, ip: string, t0: int)
    requires Valid(a, t0) && Valid(b, t0) && SameLevelOf(a, b, ip, t0) && Monotone(calls, t0)
    ensures DecisionsFor(a, gc, calls, ip) == Run(b, false, Of(calls, ip))
    decreases calls
  {
    if calls == [] {
    } else {
      var c := calls[0];
      NextFacts(a, gc, c);
      var a' := Next(a, gc, c);
      if c.ip == ip {
        NextFacts(b, false, c);
        assert Level(a, ip, c.now) == Level(b, ip, c.now);
        OthersDoNotMatter(a', Next(b, false, c), gc, calls[1..], ip, c.now);
        assert Of(calls, ip)[1..] == Of(calls[1..], ip);
      } else {
        forall t: int | c.now <= t
          ensures Level(a', ip, t) == Level(b, ip, t)
        {
          NextLevelOther(a, gc, c, ip, t);
        }
        assert Of(calls, ip) == Of(calls[1..], ip);
        OthersDoNotMatter(a', b, gc, calls[1..], ip, c.now);
      }
    }
  }

  // ------------------------------------------------------------------
  // How many requests get through
  // ------------------------------------------------------------------

  /** Requests of `ip` admitted at clock readings within [from, until]. */
  function AdmittedIn(s: Limiter, gc: bool, calls: seq<Call>, ip: string, from: int, until: int): nat
    requires s.rpm > 0
    decreases calls
  {
    if calls == [] then 0
    else
      (if calls[0].ip == ip && from <= calls[0].now <= until && Outcome(s, gc, calls[0]).Admitted? then 1 else 0)
      + AdmittedIn(Next(s, gc, calls[0]), gc, calls[1..], ip, from, until)
  }

  /** What may still be admitted in the window from a state reached at time t. */
  function Allowance(s: Limiter, ip: string, t: int, from: int, until: int): real {
    if t > until then 0.0
    else if t < from then s.rpm as real + Accrued(s.rpm, until - from)
    else Level(s, ip, t) + Accrued(s.rpm, until - t)
  }

  lemma AllowanceStep(s: Limiter, gc: bool, c: Call, ip: string, t: int, from: int, until: int)
    requires Valid(s, t) && t <= c.gcNow <= c.now && from <= until
    ensures Allowance(Next(s, gc, c), ip, c.now, from, until)
            + (if c.ip == ip && from <= c.now <= until && Outcome(s, gc, c).Admitted? then 1.0 else 0.0)
            <= Allowance(s, ip, t, from, until)
  {
    var s' := Next(s, gc, c);
    NextFacts(s, gc, c);
    LevelBounds(s, ip, t);
    LevelBounds(s, ip, c.now);
    LevelBounds(s', ip, c.now);
    AccruedFacts(s.rpm, 0, 0);
    if t <= until {
      AccruedFacts(s.rpm, until - t, 0);
    }
    AccruedFacts(s.rpm, until - from, 0);
    if c.now <= until {
      var l := Level(s, ip, c.now);
      if ip != c.ip {
        NextLevelOther(s, gc, c, ip, c.now);
      }
      assert Level(s', ip, c.now) == if ip == c.ip then Spend(l) else l;
      if from <= c.now {
        if t < from {
          AccruedFacts(s.rpm, c.now - from, until - c.now);
          AccruedFacts(s.rpm, until - c.now, 0);
          assert (c.now - from) + (until - c.now) == until - from;
        } else {
          LevelGrows(s, ip, t, c.now);
          AccruedFacts(s.rpm, c.now - t, until - c.now);
          assert (c.now - t) + (until - c.now) == until - t;
        }
      }
    }
  }

  lemma {:induction false} AdmittedWithinAllowance(s: Limiter, gc: bool, calls: seq<Call>, ip: string,
                                                   t: int, from: int, until: int)
    requires Valid(s, t) && Monotone(calls, t) && from <= until
    ensures AdmittedIn(s, gc, calls, ip, from, until) as real <= Allowance(s, ip, t, from, until)
    decreases calls
  {
    if calls == [] {
      LevelBounds(s, ip, t);
      AccruedFacts(s.rpm, until - from, 0);
      if t <= until {
        AccruedFacts(s.rpm, until - t, 0);
      }
    } else {
      AllowanceStep(s, gc, calls[0], ip, t, from, until);
      NextFacts(s, gc, calls[0]);
      AdmittedWithinAllowance(Next(s, gc, calls[0]), gc, calls[1..], ip, calls[0].now, from, until);
    }
  }

  lemma AllowanceBound(s: Limiter, ip: string, t: int, from: int, until: int)
    requires Valid(s, t) && from <= until
    ensures Allowance(s, ip, t, from, until) <= s.rpm as real + Accrued(s.rpm, until - from)
  {
    LevelBounds(s, ip, t);
    AccruedFacts(s.rpm, until - from, 0);
    if from <= t <= until {
      AccruedFacts(s.rpm, t - from, until - t);
      AccruedFacts(s.rpm, t - from, 0);
      assert (t - from) + (until - t) == until - from;
    }
  }

  /** rpm + rpm*T/60 for a window of T seconds, given in nanoseconds. */
  function InWindow(rpm: nat, ns: int): real {
    rpm as real + rpm as real * (ns as real / 1000000000.0) / 60.0
  }

  lemma WindowIsAccrued(rpm: nat, ns: int)
    ensures InWindow(rpm, ns) == rpm as real + Accrued(rpm, ns)
  {
  }

  /** At most rpm + rpm*T/60 requests of one address in any window of T seconds of any run. */
  lemma WindowBound(s: Limiter, gc: bool, calls: seq<Call>, ip: string, t: int, from: int, until: int)
    requires Valid(s, t) && Monotone(calls, t) && from <= until
    ensures AdmittedIn(s, gc, calls, ip, from, until) as real <= InWindow(s.rpm, until - from)
  {
    AdmittedWithinAllowance(s, gc, calls, ip, t, from, until);
    AllowanceBound(s, ip, t, from, until);
    WindowIsAccrued(s.rpm, until - from);
  }

  // ------------------------------------------------------------------
  // Exactly which requests get through
  // ------------------------------------------------------------------

  /** A call costs its address one token if it is admitted and nothing if it is refused. */
  lemma AdmittedCosts(s: Limiter, gc: bool, c: Call)
    requires Valid(s, c.gcNow) && c.gcNow <= c.now
    ensures Level(Next(s, gc, c), c.ip, c.now)
            == Level(s, c.ip, c.now) - if Outcome(s, gc, c).Admitted? then 1.0 else 0.0
  {
    NextFacts(s, gc, c);
    LevelBounds(s, c.ip, c.now);
    AccruedFacts(s.rpm, 0, 0);
  }

  /** What a call leaves of the other buckets: all of them, except that every hundredth call
      drops those not used in the last five minutes. */
  lemma CollectionPolicy(s: Limiter, c: Call, ip: string)
    requires s.rpm > 0 && ip != c.ip
    ensures Next(s, true, c).calls == s.calls + 1
    ensures ip in Next(s, true, c).buckets
            <==> ip in s.buckets
                 && ((s.calls + 1) % 100 != 0 || s.buckets[ip].lastFill >= c.gcNow - 300_000_000_000)
    ensures ip in Next(s, true, c).buckets ==> Next(s, true, c).buckets[ip] == s.buckets[ip]
  {
  }

  /** The limiter after a run of calls. */
  function After(s: Limiter, gc: bool, calls: seq<Call>): Limiter
    decreases calls
  {
    if calls == [] then s else After(Next(s, gc, calls[0]), gc, calls[1..])
  }

  lemma {:induction false} RunLength(s: Limiter, gc: bool, calls: seq<Call>, t0: int)
    requires Valid(s, t0) && Monotone(calls, t0)
    ensures |Run(s, gc, calls)| == |calls|
    decreases calls
  {
    if calls == [] {
    } else {
      NextFacts(s, gc, calls[0]);
      RunLength(Next(s, gc, calls[0]), gc, calls[1..], calls[0].now);
    }
  }

  /** A run, call by call. */
  lemma {:induction false} RunAt(s: Limiter, gc: bool, calls: seq<Call>, n: nat, t0: int)
    requires Valid(s, t0) && Monotone(calls, t0) && n < |calls|
    ensures |Run(s, gc, calls)| == |calls|
    ensures After(s, gc, calls[..n]).rpm == s.rpm && Valid(After(s, gc, calls[..n]), calls[n].gcNow)
    ensures calls[n].gcNow <= calls[n].now
    ensures Run(s, gc, calls)[n] == Outcome(After(s, gc, calls[..n]), gc, calls[n])
    ensures After(s, gc, calls[..n + 1]) == Next(After(s, gc, calls[..n]), gc, calls[n])
    decreases calls
  {
    NextFacts(s, gc, calls[0]);
    var s', rest := Next(s, gc, calls[0]), calls[1..];
    if n == 0 {
      assert calls[..1][1..] == [];
      RunLength(s, gc, calls, t0);
    } else {
      RunAt(s', gc, rest, n - 1, calls[0].now);
      assert calls[..n][1..] == rest[..n - 1];
      assert calls[..n + 1][1..] == rest[..n];
    }
  }

  function Admissions(ds: seq<Decision>): nat {
    if ds == [] then 0 else Admissions(ds[..|ds| - 1]) + if ds[|ds| - 1].Admitted? then 1 else 0
  }

  /** What the window from call m up to call n still leaves for call n. */
  function Room(rpm: nat, own: seq<Call>, ds: seq<Decision>, m: nat, n: nat): real
    requires m <= n < |own| && n < |ds|
  {
    InWindow(rpm, own[n].now - own[m].now) - Admissions(ds[m..n]) as real
  }

  /** One more call of the address: what it leaves, and what flows in before the next. */
  lemma RoomStep(rpm: nat, own: seq<Call>, ds: seq<Decision>, m: nat, n: nat)
    requires m <= n && n + 1 < |own| && n + 1 < |ds|
    ensures Room(rpm, own, ds, m, n + 1)
            == Room(rpm, own, ds, m, n) - (if ds[n].Admitted? then 1.0 else 0.0)
               + Accrued(rpm, own[n + 1].now - own[n].now)
  {
    assert ds[m..n + 1][..n - m] == ds[m..n];
    WindowIsAccrued(rpm, own[n].now - own[m].now);
    WindowIsAccrued(rpm, own[n + 1].now - own[m].now);
    AccruedFacts(rpm, own[n].now - own[m].now, own[n + 1].now - own[n].now);
    assert (own[n].now - own[m].now) + (own[n + 1].now - own[n].now) == own[n + 1].now - own[m].now;
  }

  predicate AllFrom(calls: seq<Call>, ip: string) { forall i :: 0 <= i < |calls| ==> calls[i].ip == ip }

  /** The level an address finds at its n-th call. */
  function LevelAt(s: Limiter, own: seq<Call>, ip: string, n: nat): real
    requires n < |own|
  {
    Level(After(s, false, own[..n]), ip, own[n].now)
  }

  lemma LevelAfterCall(s: Limiter, c: Call, t: int)
    requires Valid(s, c.gcNow) && c.gcNow <= c.now
    ensures var spent := if Outcome(s, false, c).Admitted? then 1.0 else 0.0;
            Level(Next(s, false, c), c.ip, t)
            == Capped(s.rpm, Level(s, c.ip, c.now) - spent + Accrued(s.rpm, t - c.now))
  {
    NextFacts(s, false, c);
  }

  lemma LevelAtNext(s: Limiter, own: seq<Call>, ip: string, n: nat, t0: int)
    requires Valid(s, t0) && Monotone(own, t0) && AllFrom(own, ip) && n + 1 < |own|
    ensures |Run(s, false, own)| == |own|
    ensures var spent := if Run(s, false, own)[n].Admitted? then 1.0 else 0.0;
            LevelAt(s, own, ip, n + 1)
            == Capped(s.rpm, LevelAt(s, own, ip, n) - spent + Accrued(s.rpm, own[n + 1].now - own[n].now))
  {
    RunAt(s, false, own, n, t0);
    LevelAfterCall(After(s, false, own[..n]), own[n], own[n + 1].now);
  }

  lemma {:induction false} MonotoneAt(calls: seq<Call>, n: nat, t0: int)
    requires Monotone(calls, t0) && n + 1 < |calls|
    ensures calls[n].now <= calls[n + 1].now
    decreases calls
  {
    if n > 0 {
      MonotoneAt(calls[1..], n - 1, calls[0].now);
    }
  }

  ghost predicate IsLeastRoom(level: real, rpm: nat, own: seq<Call>, ds: seq<Decision>, n: nat)
    requires n < |own| && n < |ds|
  {
    && (forall m :: 0 <= m <= n ==> level <= Room(rpm, own, ds, m, n))
    && (exists m :: 0 <= m <= n && level == Room(rpm, own, ds, m, n))
  }

  /** If `before` is the least room at call n, then what it becomes is the least at the next. */
  lemma LeastRoomStep(before: real, after: real, rpm: nat, own: seq<Call>, ds: seq<Decision>, n: nat, next: nat)
    requires next == n + 1 < |own| && next < |ds| && Room(rpm, own, ds, next, next) == rpm as real
    requires IsLeastRoom(before, rpm, own, ds, n)
    requires after == Capped(rpm, before - (if ds[n].Admitted? then 1.0 else 0.0)
                                  + Accrued(rpm, own[next].now - own[n].now))
    ensures IsLeastRoom(after, rpm, own, ds, next)
  {
    forall m | 0 <= m <= n
      ensures Room(rpm, own, ds, m, next) == Room(rpm, own, ds, m, n) - (if ds[n].Admitted? then 1.0 else 0.0)
                                             + Accrued(rpm, own[next].now - own[n].now)
    {
      RoomStep(rpm, own, ds, m, n);
    }
    var least :| 0 <= least <= n && before == Room(rpm, own, ds, least, n);
    assert after == Room(rpm, own, ds, if after == rpm as real then next else least, next);
  }

  lemma RoomAtOnce(rpm: nat, own: seq<Call>, ds: seq<Decision>, n: nat)
    requires n < |own| && n < |ds|
    ensures Room(rpm, own, ds, n, n) == rpm as real
  {
    AccruedFacts(rpm, 0, 0);
    assert ds[n..n] == [];
  }

  /** The level is the least room that any window ending now leaves. */
  lemma {:induction false} LevelIsLeastRoom(s: Limiter, own: seq<Call>, ip: string, n: nat, t0: int)
    requires Valid(s, t0) && Monotone(own, t0) && AllFrom(own, ip) && ip !in s.buckets && n < |own|
    ensures |Run(s, false, own)| == |own|
    ensures IsLeastRoom(LevelAt(s, own, ip, n), s.rpm, own, Run(s, false, own), n)
  {
    var ds := Run(s, false, own);
    RunLength(s, false, own, t0);
    RoomAtOnce(s.rpm, own, ds, n);
    if n == 0 {
      assert own[..0] == [];
    } else {
      LevelIsLeastRoom(s, own, ip, n - 1, t0);
      LevelAtNext(s, own, ip, n - 1, t0);
      LeastRoomStep(LevelAt(s, own, ip, n - 1), LevelAt(s, own, ip, n), s.rpm, own, ds, n - 1, n);
    }
  }

  lemma {:induction false} OfIsMonotone(calls: seq<Call>, ip: string, t0: int, t: int)
    requires Monotone(calls, t) && t0 <= t
    ensures Monotone(Of(calls, ip), t0) && AllFrom(Of(calls, ip), ip)
    decreases calls
  {
    if calls == [] {
    } else if calls[0].ip == ip {
      OfIsMonotone(calls[1..], ip, calls[0].now, calls[0].now);
      assert Of(calls, ip)[1..] == Of(calls[1..], ip);
    } else {
      OfIsMonotone(calls[1..], ip, t0, calls[0].now);
      assert Of(calls, ip) == Of(calls[1..], ip);
    }
  }

  /** One more admission at call n keeps every window that ends there within rpm + rpm*T/60. */
  ghost predicate FitsEveryWindow(rpm: nat, own: seq<Call>, ds: seq<Decision>, n: nat)
    requires n < |own| && n < |ds|
  {
    forall m :: 0 <= m <= n ==> (Admissions(ds[m..n]) + 1) as real <= InWindow(rpm, own[n].now - own[m].now)
  }

  lemma LevelDecides(level: real, rpm: nat, own: seq<Call>, ds: seq<Decision>, n: nat)
    requires n < |own| && n < |ds|
    requires IsLeastRoom(level, rpm, own, ds, n)
    ensures level >= 1.0 <==> FitsEveryWindow(rpm, own, ds, n)
  {
    var least :| 0 <= least <= n && level == Room(rpm, own, ds, least, n);
    forall m | 0 <= m <= n
      ensures Room(rpm, own, ds, m, n) >= 1.0
              <==> (Admissions(ds[m..n]) + 1) as real <= InWindow(rpm, own[n].now - own[m].now)
    {
    }
  }

  lemma OwnCallsIff(s: Limiter, own: seq<Call>, ip: string, n: nat, t0: int)
    requires Valid(s, t0) && Monotone(own, t0) && AllFrom(own, ip) && ip !in s.buckets && n < |own|
    ensures |Run(s, false, own)| == |own|
    ensures var ds := Run(s, false, own);
            ds[n].Admitted? <==> FitsEveryWindow(s.rpm, own, ds, n)
  {
    LevelIsLeastRoom(s, own, ip, n, t0);
    RunAt(s, false, own, n, t0);
    NextFacts(After(s, false, own[..n]), false, own[n]);
    LevelDecides(LevelAt(s, own, ip, n), s.rpm, own, Run(s, false, own), n);
  }

  /** The limiter refuses nothing it need not. In any run of calls from any addresses, with or
      without collection, the n-th call of an address new to the limiter is admitted if and only
      if admitting it keeps every window that ends with it, from whichever earlier call of the
      address, within rpm + rpm*T/60 requests. */
  lemma AdmittedIffWithinEveryWindow(s: Limiter, gc: bool, calls: seq<Call>, ip: string, n: nat, t0: int)
    requires Valid(s, t0) && Monotone(calls, t0) && ip !in s.buckets && n < |Of(calls, ip)|
    ensures |DecisionsFor(s, gc, calls, ip)| == |Of(calls, ip)|
    ensures var own, ds := Of(calls, ip), DecisionsFor(s, gc, calls, ip);
            ds[n].Admitted? <==> FitsEveryWindow(s.rpm, own, ds, n)
  {
    OfIsMonotone(calls, ip, t0, t0);
    OthersDoNotMatter(s, s, gc, calls, ip, t0);
    OwnCallsIff(s, Of(calls, ip), ip, n, t0);
  }

  lemma {:induction false} AdmissionsAtMost(ds: seq<Decision>)
    ensures Admissions(ds) <= |ds|
  {
    if ds == [] {
    } else {
      AdmissionsAtMost(ds[..|ds| - 1]);
    }
  }

  lemma {:induction false} Later(calls: seq<Call>, m: nat, n: nat, t0: int)
    requires Monotone(calls, t0) && m <= n < |calls|
    ensures calls[m].now <= calls[n].now
    decreases n
  {
    if m < n {
      MonotoneAt(calls, n - 1, t0);
      Later(calls, m, n - 1, t0);
    }
  }

  /** So the first rpm calls of a new address are all admitted, whatever others do. */
  lemma FirstCallsAdmitted(s: Limiter, gc: bool, calls: seq<Call>, ip: string, n: nat, t0: int)
    requires Valid(s, t0) && Monotone(calls, t0) && ip !in s.buckets && n < |Of(calls, ip)| && n < s.rpm
    ensures |DecisionsFor(s, gc, calls, ip)| == |Of(calls, ip)|
    ensures DecisionsFor(s, gc, calls, ip)[n].Admitted?
  {
    AdmittedIffWithinEveryWindow(s, gc, calls, ip, n, t0);
    OfIsMonotone(calls, ip, t0, t0);
    var own, ds := Of(calls, ip), DecisionsFor(s, gc, calls, ip);
    forall m | 0 <= m <= n
      ensures (Admissions(ds[m..n]) + 1) as real <= InWindow(s.rpm, own[n].now - own[m].now)
    {
      AdmissionsAtMost(ds[m..n]);
      Later(own, m, n, t0);
      WindowIsAccrued(s.rpm, own[n].now - own[m].now);
      AccruedFacts(s.rpm, own[n].now - own[m].now, 0);
    }
  }

  // ------------------------------------------------------------------
  // Retry-After
  // ------------------------------------------------------------------

  /** Waiting w' >= w = (1 - tokens) * 60 / r seconds at r tokens a minute brings back a token. */
  lemma WaitIsEnough(tokens: real, r: real, w: real, w': real)
    requires 0.0 <= tokens < 1.0 && r >= 1.0 && w * r == (1.0 - tokens) * 60.0 && w <= w'
    ensures w <= 60.0
    ensures tokens + w' * r / 60.0 >= 1.0
  {
    assert (w' - w) * r >= 0.0;
    assert w' * r == w * r + (w' - w) * r;
    assert w <= 60.0 by {
      assert (60.0 - w) * r == 60.0 * r - w * r >= 0.0;
    }
  }

  lemma RetryAfterFacts(rpm: nat, tokens: real)
    requires rpm > 0 && 0.0 <= tokens < 1.0
    ensures 1 <= RetryAfter(rpm, tokens) <= 60
    ensures tokens + Accrued(rpm, (RetryAfter(rpm, tokens) + 1) * SECOND) >= 1.0
    ensures RetryAfter(rpm, tokens) > 1 ==> tokens + Accrued(rpm, RetryAfter(rpm, tokens) * SECOND) <= 1.0
  {
    var w := (1.0 - tokens) * 60.0 / rpm as real;
    var secs := RetryAfter(rpm, tokens) + 1;
    if secs > 2 {
      assert ((secs - 1) * SECOND) as real / 1000000000.0 == (secs - 1) as real <= w;
      assert (w - (secs - 1) as real) * rpm as real >= 0.0;
    }
    assert (secs * SECOND) as real / 1000000000.0 == secs as real;
    WaitIsEnough(tokens, rpm as real, w, secs as real);
  }

  function EndOf(calls: seq<Call>, t: int): int {
    if calls == [] then t else calls[|calls| - 1].now
  }

  predicate Without(calls: seq<Call>, ip: string) {
    forall i :: 0 <= i < |calls| ==> calls[i].ip != ip
  }

  /** Whatever the limiter serves to others meanwhile, an address keeps its level. */
  lemma {:induction false} OthersKeepLevel(s: Limiter, gc: bool, between: seq<Call>, ip: string, t0: int, t: int)
    requires Valid(s, t0) && Monotone(between, t0) && Without(between, ip) && EndOf(between, t0) <= t
    ensures t0 <= EndOf(between, t0)
    ensures Valid(After(s, gc, between), EndOf(between, t0)) && After(s, gc, between).rpm == s.rpm
    ensures Level(After(s, gc, between), ip, t) == Level(s, ip, t)
    decreases between
  {
    if between == [] {
    } else {
      var c, rest := between[0], between[1..];
      assert EndOf(rest, c.now) == EndOf(between, t0);
      NextFacts(s, gc, c);
      OthersKeepLevel(Next(s, gc, c), gc, rest, ip, c.now, t);
      NextLevelOther(s, gc, c, ip, t);
    }
  }

  lemma LevelAfterRefusal(s: Limiter, gc: bool, c: Call, t: int)
    requires Valid(s, c.gcNow) && c.gcNow <= c.now <= t && Outcome(s, gc, c).Refused?
    ensures Level(Next(s, gc, c), c.ip, t) == Capped(s.rpm, Level(s, c.ip, c.now) + Accrued(s.rpm, t - c.now))
  {
    NextFacts(s, gc, c);
  }

  /** An address that stays quiet after a refusal, while any others call, gets the decision it
      would have got had nobody called, collections included: it is admitted exactly when its
      tokens have grown back to one, and Retry-After + 1 seconds always suffice. */
  lemma QuietThenAdmitted(s: Limiter, gc: bool, c: Call, between: seq<Call>, d: Call)
    requires Valid(s, c.gcNow) && c.gcNow <= c.now && Monotone(between, c.now)
    requires EndOf(between, c.now) <= d.gcNow <= d.now && d.ip == c.ip && Without(between, c.ip)
    requires Outcome(s, gc, c).Refused?
    ensures 1 <= Outcome(s, gc, c).retryAfter <= 60
    ensures var s' := Next(s, gc, c);
            After(s', gc, between).rpm == s.rpm && Outcome(After(s', gc, between), gc, d) == Outcome(s', gc, d)
    ensures Outcome(Next(s, gc, c), gc, d).Admitted?
            <==> Level(s, c.ip, c.now) + Accrued(s.rpm, d.now - c.now) >= 1.0
    ensures d.now - c.now >= (Outcome(s, gc, c).retryAfter + 1) * SECOND
            ==> Outcome(Next(s, gc, c), gc, d).Admitted?
  {
    NextFacts(s, gc, c);
    OthersKeepLevel(Next(s, gc, c), gc, between, c.ip, c.now, d.now);
    NextFacts(Next(s, gc, c), gc, d);
    NextFacts(After(Next(s, gc, c), gc, between), gc, d);
    LevelAfterRefusal(s, gc, c, d.now);
    var need := (Outcome(s, gc, c).retryAfter + 1) * SECOND;
    LevelBounds(s, c.ip, c.now);
    RetryAfterFacts(s.rpm, Level(s, c.ip, c.now));
    if d.now - c.now >= need {
      AccruedFacts(s.rpm, d.now - c.now - need, need);
      AccruedFacts(s.rpm, d.now - c.now - need, 0);
      assert (d.now - c.now - need) + need == d.now - c.now;
    }
  }

  lemma GrownBackIff(tokens: real, r: real, w: real, w': real)
    requires r >= 1.0 && w * r == (1.0 - tokens) * 60.0
    ensures tokens + w' * r / 60.0 >= 1.0 <==> w' >= w
  {
    assert w' * r == w * r + (w' - w) * r;
    assert (w' - w) * r >= 0.0 <==> w' >= w;
  }

  lemma WaitSufficesIff(rpm: nat, tokens: real)
    requires rpm > 0 && 0.0 <= tokens < 1.0
    ensures var wait := TrueWait(rpm, tokens);
            tokens + Accrued(rpm, RetryAfter(rpm, tokens) * SECOND) >= 1.0
            <==> wait <= 1.0 || wait == wait.Floor as real
  {
    var wait, retry := TrueWait(rpm, tokens), RetryAfter(rpm, tokens);
    assert (retry * SECOND) as real / 1000000000.0 == retry as real;
    GrownBackIff(tokens, rpm as real, wait, retry as real);
  }

  /** Waiting exactly Retry-After seconds is enough if and only if the true wait is at most a
      second or a whole number of seconds: the code truncates it. */
  lemma RetryAfterSufficesIff(s: Limiter, gc: bool, c: Call, between: seq<Call>, d: Call)
    requires Valid(s, c.gcNow) && c.gcNow <= c.now && Monotone(between, c.now)
    requires EndOf(between, c.now) <= d.gcNow <= d.now && d.ip == c.ip && Without(between, c.ip)
    requires Outcome(s, gc, c).Refused? && d.now == c.now + Outcome(s, gc, c).retryAfter * SECOND
    ensures After(Next(s, gc, c), gc, between).rpm == s.rpm
    ensures var wait := TrueWait(s.rpm, Level(s, c.ip, c.now));
            Outcome(After(Next(s, gc, c), gc, between), gc, d).Admitted?
            <==> wait <= 1.0 || wait == wait.Floor as real
  {
    QuietThenAdmitted(s, gc, c, between, d);
    NextFacts(s, gc, c);
    LevelBounds(s, c.ip, c.now);
    WaitSufficesIff(s.rpm, Level(s, c.ip, c.now));
  }

  /** Waiting exactly Retry-After seconds can be too short: the code truncates the wait. */
  lemma RetryAfterAloneCanBeTooShort()
    ensures exists s: Limiter, c: Call, d: Call ::
              && Valid(s, c.now) && c.gcNow == c.now && d.ip == c.ip && d.gcNow == d.now
              && Outcome(s, true, c).Refused?
              && d.now == c.now + Outcome(s, true, c).retryAfter * SECOND
              && Outcome(Next(s, true, c), true, d).Refused?
  {
    var s := Limiter(7, map["x" := Bucket(0.0, 0)], 7);
    var c, d := Call("x", 0, 0), Call("x", 8 * SECOND, 8 * SECOND);
    AccruedFacts(7, 0, 0);
    NextFacts(s, true, c);
    var wait := (1.0 - 0.0) * 60.0 / 7.0;
    assert 8.0 <= wait < 9.0;
    assert Level(s, "x", 0) == 0.0;
    assert Outcome(s, true, c) == Refused(8);
    QuietThenAdmitted(s, true, c, [], d);
    assert (8 * SECOND) as real / 1000000000.0 == 8.0;
    assert Outcome(Next(s, true, c), true, d).Refused?;
  }
}
