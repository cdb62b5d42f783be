/** Storm control: a token bucket holding one second's budget of flooded frames. */
module Storm {
  const NANOS := 1_000_000_000

  /** lastNano == 0 marks a bucket that was never used. */
  datatype Bucket = Bucket(tokens: int, lastNano: int)

  /** The bucket just before the call at `now` takes its token. */
  function Refilled(b: Bucket, pps: nat, now: int): Bucket {
    if b.lastNano == 0 then Bucket(pps, now)
    else if now <= b.lastNano then b
    else
      var t := b.tokens + (now - b.lastNano) * pps / NANOS;
      Bucket(if t > pps then pps else t, now)
  }

  function Taken(b: Bucket, pps: nat, now: int): Bucket {
    var r := Refilled(b, pps, now);
    r.(tokens := r.tokens - 1)
  }

  predicate Allows(b: Bucket, pps: nat, now: int) { Taken(b, pps, now).tokens >= 0 }

  /** The bucket as the source keeps it: two words updated in place by each call. */
  class StormBucket {
    var tokens: int
    var lastNano: int

    function State(): Bucket
      reads this
    {
      Bucket(tokens, lastNano)
    }

    constructor ()
      ensures State() == Bucket(0, 0)
    {
      tokens, lastNano := 0, 0;
    }

    method Allow(pps: nat, now: int) returns (ok: bool)
      modifies this
      ensures State() == Taken(old(State()), pps, now)
      ensures ok <==> Allows(old(State()), pps, now)
    {
      var last := lastNano;
      if last == 0 {
        lastNano := now;
        tokens := pps;
        last := now;
      }
      var elapsed := now - last;
      if elapsed > 0 {
        lastNano := now;
        tokens := tokens + elapsed * pps / NANOS;
        if tokens > pps { tokens := pps; }
      }
      tokens := tokens - 1;
      ok := tokens >= 0;
    }
  }

  // ------------------------------------------------------------ upper bound

  /** How many of the calls at the given times are allowed, starting from bucket b. */
  function Allowed(b: Bucket, pps: nat, times: seq<int>): nat
    decreases times
  {
    if times == [] then 0
    else (if Allows(b, pps, times[0]) then 1 else 0) + Allowed(Taken(b, pps, times[0]), pps, times[1..])
  }

  /** The bucket after those calls. */
  function After(b: Bucket, pps: nat, times: seq<int>): Bucket
    decreases times
  {
    if times == [] then b else After(Taken(b, pps, times[0]), pps, times[1..])
  }

  /** Clock readings are positive and never go back. */
  ghost predicate Clock(times: seq<int>) {
    && (forall i | 0 <= i < |times| :: 0 < times[i])
    && (forall i, j | 0 <= i < j < |times| :: times[i] <= times[j])
  }

  /** Whole tokens earned over adjacent spans never exceed the whole tokens of the joint span. */
  lemma EarnedAdds(pps: nat, a: int, b: int, c: int)
    requires a <= b <= c
    ensures (b - a) * pps / NANOS + (c - b) * pps / NANOS <= (c - a) * pps / NANOS
  {
    var x, y := (b - a) * pps, (c - b) * pps;
    assert (c - a) * pps == x + y;
  }

  lemma EarnedNonNegative(pps: nat, d: nat)
    ensures 0 <= d * pps / NANOS
  {}

  /** A used bucket lets through no more than its tokens and what it earns until `end`. */
  lemma {:induction false} AllowedWithin(b: Bucket, pps: nat, times: seq<int>, end: int)
    requires Clock(times) && 0 < b.lastNano <= end
    requires forall i | 0 <= i < |times| :: b.lastNano <= times[i] <= end
    ensures var budget := b.tokens + (end - b.lastNano) * pps / NANOS;
            Allowed(b, pps, times) <= if budget > 0 then budget else 0
    decreases times
  {
    if times != [] {
      var t := times[0];
      EarnedAdds(pps, b.lastNano, t, end);
      EarnedNonNegative(pps, end - t);
      EarnedNonNegative(pps, t - b.lastNano);
      AllowedWithin(Taken(b, pps, t), pps, times[1..], end);
    }
  }

  /** A used bucket never holds more than one second's budget, and remembers its last call. */
  lemma {:induction false} NeverOverfull(b: Bucket, pps: nat, times: seq<int>)
    requires Clock(times) && b.tokens <= pps && 0 <= b.lastNano
    requires forall i | 0 <= i < |times| :: b.lastNano <= times[i]
    ensures After(b, pps, times).tokens <= pps && 0 <= After(b, pps, times).lastNano
    ensures times == [] || After(b, pps, times).lastNano == times[|times| - 1]
    decreases times
  {
    if times != [] { NeverOverfull(Taken(b, pps, times[0]), pps, times[1..]); }
  }

  /** Refilling for a call and then making it is the call itself. */
  lemma RefillThenTake(b: Bucket, pps: nat, t: int)
    requires 0 < t && b.lastNano <= t
    ensures Taken(Refilled(b, pps, t), pps, t) == Taken(b, pps, t)
  {}

  lemma WindowBound(b: Bucket, pps: nat, window: seq<int>, d: nat)
    requires Clock(window) && window != [] && b.tokens <= pps && 0 <= b.lastNano <= window[0]
    requires forall i | 0 <= i < |window| :: window[i] <= window[0] + d
    ensures Allowed(b, pps, window) <= pps + d * pps / NANOS
  {
    var t := window[0];
    var full := Refilled(b, pps, t);
    RefillThenTake(b, pps, t);
    AllowedWithin(full, pps, window, t + d);
    EarnedNonNegative(pps, d);
  }

  /**
   In any window of length d that starts at a call, after any earlier calls on a
   fresh bucket, at most pps + floor(pps * d / 10^9) calls are allowed.
   */
  lemma StormBound(pps: nat, earlier: seq<int>, window: seq<int>, d: nat)
    requires Clock(earlier + window) && window != []
    requires forall i | 0 <= i < |window| :: window[i] <= window[0] + d
    ensures Allowed(After(Bucket(0, 0), pps, earlier), pps, window) <= pps + d * pps / NANOS
  {
    var all := earlier + window;
    assert forall i | 0 <= i < |window| :: window[i] == all[|earlier| + i];
    assert forall i | 0 <= i < |earlier| :: earlier[i] == all[i];
    NeverOverfull(Bucket(0, 0), pps, earlier);
    WindowBound(After(Bucket(0, 0), pps, earlier), pps, window, d);
  }

  // --------------------------------------------------------------- overload

  /**
   Refills are rounded down at every call. So calls that keep coming faster than
   pps per second earn nothing: the first pps pass and then none, for as long as
   the overload lasts.
   */
  lemma {:induction false} OverloadEarnsNothing(b: Bucket, pps: nat, times: seq<int>)
    requires Clock(times) && 0 < b.lastNano && b.tokens <= pps
    requires times != [] ==> b.lastNano <= times[0] && (times[0] - b.lastNano) * pps < NANOS
    requires forall i | 0 <= i < |times| - 1 :: (times[i + 1] - times[i]) * pps < NANOS
    ensures Allowed(b, pps, times) == if b.tokens <= 0 then 0 else if b.tokens < |times| then b.tokens else |times|
    decreases times
  {
    if times != [] {
      EarnedNonNegative(pps, times[0] - b.lastNano);
      OverloadEarnsNothing(Taken(b, pps, times[0]), pps, times[1..]);
    }
  }

  lemma OverloadPassesOneBudget(pps: nat, times: seq<int>)
    requires Clock(times)
    requires forall i | 0 <= i < |times| - 1 :: (times[i + 1] - times[i]) * pps < NANOS
    ensures Allowed(Bucket(0, 0), pps, times) == if pps < |times| then pps else |times|
  {
    if times != [] {
      OverloadEarnsNothing(Taken(Bucket(0, 0), pps, times[0]), pps, times[1..]);
    }
  }

  // --------------------------------------------------------------- recovery

  /** How many of n calls at one instant a bucket holding this many tokens lets through. */
  function Passing(held: int, n: nat): nat { if held <= 0 then 0 else if held < n then held else n }

  /** n calls at the same instant. */
  function Burst(now: int, n: nat): seq<int> { seq(n, _ => now) }

  /** After a pause, a burst passes exactly as far as what was left plus what the pause earned, up to one budget. */
  lemma BurstPasses(b: Bucket, pps: nat, now: int, n: nat)
    requires 0 < b.lastNano <= now && b.tokens <= pps
    ensures var held := b.tokens + (now - b.lastNano) * pps / NANOS;
            Allowed(b, pps, Burst(now, n)) == Passing(if pps < held then pps else held, n)
  {
    var full := Refilled(b, pps, now);
    EarnedNonNegative(pps, now - b.lastNano);
    if 0 < n {
      RefillThenTake(b, pps, now);
      OverloadEarnsNothing(full, pps, Burst(now, n));
    }
  }

  /** A refused call takes a token too: overload leaves the bucket in debt by every call beyond the budget. */
  lemma {:induction false} OverloadDebt(b: Bucket, pps: nat, times: seq<int>)
    requires Clock(times) && 0 < b.lastNano && b.tokens <= pps
    requires times != [] ==> b.lastNano <= times[0] && (times[0] - b.lastNano) * pps < NANOS
    requires forall i | 0 <= i < |times| - 1 :: (times[i + 1] - times[i]) * pps < NANOS
    ensures After(b, pps, times).tokens == b.tokens - |times|
    ensures After(b, pps, times).lastNano == if times == [] then b.lastNano else times[|times| - 1]
    decreases times
  {
    if times != [] {
      EarnedNonNegative(pps, times[0] - b.lastNano);
      OverloadDebt(Taken(b, pps, times[0]), pps, times[1..]);
    }
  }

  /**
   After an overload of any length and a pause, a burst passes exactly as far as the budget less
   every call of the overload plus what the pause earned; so the pause has to pay for refused calls.
   */
  lemma RecoversAfter(pps: nat, times: seq<int>, now: int, n: nat)
    requires Clock(times + [now]) && times != []
    requires forall i | 0 <= i < |times| - 1 :: (times[i + 1] - times[i]) * pps < NANOS
    ensures var held := pps - |times| + (now - times[|times| - 1]) * pps / NANOS;
            Allowed(After(Bucket(0, 0), pps, times), pps, Burst(now, n)) == Passing(if pps < held then pps else held, n)
  {
    var all := times + [now];
    assert forall i | 0 <= i < |times| :: times[i] == all[i];
    assert all[|times|] == now && all[|times| - 1] == times[|times| - 1];
    OverloadDebt(Taken(Bucket(0, 0), pps, times[0]), pps, times[1..]);
    BurstPasses(After(Bucket(0, 0), pps, times), pps, now, n);
  }
}
