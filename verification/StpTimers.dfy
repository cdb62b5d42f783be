/**
 The arithmetic of a bridge's timers: where a port is after n ticks of its climb, and how
 the age of a root claim grows on the wire from relay to relay.
 */
module StpTimers {
  import opened SwitchPorts
  import opened StpSteps
  import opened Bpdu
  import opened Division

  // ------------------------------------------------------------ dwell times

  function Ceil(f: nat, d: nat): nat
    requires 0 < d
  {
    (f + d - 1) / d
  }

  lemma CeilIff(n: nat, f: nat, d: nat)
    requires 0 < d
    ensures n < Ceil(f, d) <==> n * d < f
  {
    var c := Ceil(f, d);
    assert f + d - 1 == c * d + (f + d - 1) % d;
    if n < c { Spaced(n, c, d); } else if c < n { Spaced(c, n, d); }
  }

  /** Where a port is n ticks after it started to listen. */
  function TrackAt(n: nat, forwardDelay: nat, dt: nat): Track
    requires 0 < dt
  {
    var c := Ceil(forwardDelay, dt);
    if n < c then Track(Listening, n * dt)
    else if n < 2 * c then Track(Learning, (n - c) * dt)
    else Track(Forwarding, 0)
  }

  lemma OneTick(n: nat, forwardDelay: nat, dt: nat)
    requires 0 < dt && 0 < forwardDelay
    ensures Climbed(TrackAt(n, forwardDelay, dt), forwardDelay, dt) == TrackAt(n + 1, forwardDelay, dt)
  {
    var c := Ceil(forwardDelay, dt);
    CeilIff(0, forwardDelay, dt);
    CeilIff(n + 1, forwardDelay, dt);
    assert n * dt + dt == (n + 1) * dt;
    if c <= n {
      CeilIff(n + 1 - c, forwardDelay, dt);
      assert (n - c) * dt + dt == (n + 1 - c) * dt;
    }
  }

  // ------------------------------------------------------------ message age

  /** What a bridge sends on from information it holds at this age. */
  function Relay(infoAge: nat): nat { Wire(infoAge + SECOND) }

  /** The wire age after relaying a claim over hops that held it for the given times, from the root's age 0. */
  function WireAfter(held: seq<nat>): nat {
    if held == [] then 0 else Relay(FromWire(WireAfter(held[..|held| - 1])) + held[|held| - 1])
  }

  /** At every relay the information was younger than maxAge, as a hello requires. */
  ghost predicate Relayed(held: seq<nat>, maxAge: nat) {
    forall k | 0 <= k < |held| :: FromWire(WireAfter(held[..k])) + held[k] < maxAge
  }

  /** Whole 1/256 s units of the holding times. */
  function Units(held: seq<nat>): nat {
    if held == [] then 0 else Units(held[..|held| - 1]) + held[|held| - 1] / TICK
  }

  lemma UnitsAdd(k: nat, t: nat)
    ensures (k * TICK + t) / TICK == k + t / TICK
  {
    QuotientIs(k * TICK + t, TICK, k + t / TICK, t % TICK);
  }

  lemma RelayAdds(w: nat, t: nat)
    requires FromWire(w) + t + SECOND < 256 * SECOND
    ensures Relay(FromWire(w) + t) == w + 256 + t / TICK
  {
    FromWireUnits(w);
    WireUnits(w * TICK + t + SECOND);
    UnitsAdd(w + 256, t);
  }

  /** While maxAge leaves room, the wire age is exactly one second per hop plus the whole units of the holding times. */
  lemma {:induction false} WireAgeExact(held: seq<nat>, maxAge: nat)
    requires Relayed(held, maxAge) && maxAge + SECOND <= 256 * SECOND
    ensures WireAfter(held) == 256 * |held| + Units(held)
  {
    if held != [] {
      var n := |held| - 1;
      var front := held[..n];
      assert forall k | 0 <= k < n :: front[..k] == held[..k];
      WireAgeExact(front, maxAge);
      assert FromWire(WireAfter(held[..n])) + held[n] < maxAge;
      RelayAdds(WireAfter(front), held[n]);
    }
  }

  lemma HopBound(held: seq<nat>, maxAge: nat, k: nat)
    requires Relayed(held, maxAge) && maxAge + SECOND <= 256 * SECOND && k < |held|
    ensures k * SECOND + Units(held[..k]) * TICK + held[k] < maxAge
  {
    assert forall i | 0 <= i < k :: held[..k][..i] == held[..i];
    WireAgeExact(held[..k], maxAge);
    UnitsOfWire(k, Units(held[..k]));
  }

  lemma UnitsOfWire(k: nat, u: nat)
    ensures FromWire(256 * k + u) == k * SECOND + u * TICK
  {
    FromWireUnits(256 * k + u);
  }

  /** The wire age grows by at least one second at every relay exactly when maxAge leaves room for it. */
  lemma RelayGrowsIff(maxAge: nat)
    requires 0 < maxAge
    ensures (forall age: nat | age < maxAge :: age / TICK + 256 <= Relay(age)) <==> maxAge + SECOND <= 256 * SECOND
  {
    if maxAge + SECOND <= 256 * SECOND {
      forall age: nat | age < maxAge
        ensures age / TICK + 256 <= Relay(age)
      {
        WireUnits(age + SECOND);
        UnitsAdd(256, age);
      }
    } else {
      var age := maxAge - 1;
      UnitsAdd(65280, age - 65280 * TICK);
      assert Relay(age) < 65536;
      assert !(age / TICK + 256 <= Relay(age));
    }
  }

  /** With a larger maxAge a relay can make a claim look young again. */
  lemma WireAgeWraps()
    ensures Relay(255 * SECOND + SECOND / 2) < Wire(255 * SECOND + SECOND / 2)
  {}
}
