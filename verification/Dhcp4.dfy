/** Address selection of the DHCPv4 server (RFC 2131, sections 4.3.1 and 4.3.2). */
module Dhcp4 {
  import opened Wrappers
  import opened Leases

  datatype Config = Config(enabled: bool, start: nat, end: nat, leaseTime: int, gateway: nat)

  /** A DISCOVER or REQUEST: who asks, option 50 and ciaddr; absent or unspecified addresses are None or 0. */
  datatype Ask = Ask(who: Client, requested: Option<nat>, current: Option<nat>)

  datatype Reply = Silent | Offer(ip: nat) | Ack(ip: nat) | Nak

  function Bound(bindings: set<Binding>): set<nat> { set b <- bindings :: b.ip }

  function NewLease(cfg: Config, who: Client, ip: nat, fixed: bool, now: int): Lease {
    Lease(ip, who.mac, who.clientID, who.port, now + cfg.leaseTime, fixed)
  }

  // --------------------------------------------------------------- selection

  /** Addresses the pool hands out to clients without a binding. */
  predicate Offerable(cfg: Config, bindings: set<Binding>, ip: nat) {
    cfg.start <= ip <= cfg.end && ip != cfg.gateway && ip !in Bound(bindings)
  }

  /** The address a client gets, if any, given the best binding and its own lease. */
  ghost predicate Picks(t: Table, cfg: Config, bindings: set<Binding>, ask: Ask, now: int,
                        best: Option<Binding>, own: Option<nat>, got: Option<nat>)
  {
    var key := ask.who.Key();
    if best.Some? then
      got == if InUse(t, best.value.ip, key, now) then None else Some(best.value.ip)
    else if own.Some? && own.value !in Bound(bindings) then
      got == own
    else if ask.requested.Some? && Offerable(cfg, bindings, ask.requested.value)
            && !InUse(t, ask.requested.value, key, now) then
      got == ask.requested
    else
      IsFirstFree(t, cfg.start, cfg.end, Bound(bindings) + {cfg.gateway}, now, got)
  }

  function Booked(t: Table, cfg: Config, who: Client, now: int, got: Option<nat>, fixed: bool): Table {
    if got.None? then t else t[got.value := NewLease(cfg, who, got.value, fixed, now)]
  }

  /** One selection: the table and the address it gives. */
  ghost predicate Selects(t: Table, cfg: Config, bindings: set<Binding>, ask: Ask, now: int,
                          t': Table, got: Option<nat>)
  {
    exists best, own ::
      && IsBest(bindings, ask.who, best)
      && IsOwn(t, ask.who.Key(), now, own)
      && Picks(t, cfg, bindings, ask, now, best, own, got)
      && t' == Booked(t, cfg, ask.who, now, got, best.Some?)
  }

  /** A selection gives only addresses no other client holds, and books nothing but what it gives. */
  lemma SelectsSafely(t: Table, cfg: Config, bindings: set<Binding>, ask: Ask, now: int, t': Table, got: Option<nat>)
    requires Keyed(t) && Selects(t, cfg, bindings, ask, now, t', got)
    ensures Keyed(t')
    ensures got.None? ==> t' == t
    ensures got.Some? ==>
              && !InUse(t, got.value, ask.who.Key(), now)
              && got.value in t' && t'[got.value].Key() == ask.who.Key() && t'[got.value].expiry == now + cfg.leaseTime
              && t'[got.value].port == ask.who.port
              && t' - {got.value} == t - {got.value}
    ensures forall ip <- t | InUse(t, ip, ask.who.Key(), now) :: ip in t' && t'[ip] == t[ip]
  {
  }

  // ---------------------------------------------------------- who gets what

  /** The client's port, hardware address and identifier meet the conditions that are set, and some is. */
  predicate Meets(b: Binding, who: Client) {
    && (b.port == None || b.port == Some(who.port))
    && (b.mac == None || Lower(b.mac.value) == Lower(who.mac))
    && (b.clientID == None || Lower(b.clientID.value) == Lower(who.clientID))
    && !(b.port == b.mac == b.clientID == None)
  }

  /** The conditions that are set. */
  function Conditions(b: Binding): seq<string> {
    (if b.port == None then [] else ["port"]) + (if b.mac == None then [] else ["mac"])
    + if b.clientID == None then [] else ["clientID"]
  }

  /** A binding that names the client by more conditions than b does, or by as many with a higher order. */
  predicate Outranks(c: Binding, b: Binding) {
    |Conditions(c)| > |Conditions(b)| || (|Conditions(c)| == |Conditions(b)| && c.order > b.order)
  }

  lemma ScoreIs(b: Binding)
    ensures b.Score() == |Conditions(b)|
  {}

  lemma MeetsIff(b: Binding, who: Client)
    ensures b.Applies(who) <==> Meets(b, who)
  {}

  /**
   A client with a binding that outranks every other one it meets gets the bound address, and only
   that, if and only if no other client has a live lease on it.
   */
  lemma BoundClient(t: Table, cfg: Config, bindings: set<Binding>, ask: Ask, now: int, t': Table, got: Option<nat>,
                    b: Binding)
    requires Selects(t, cfg, bindings, ask, now, t', got) && b in bindings && Meets(b, ask.who)
    requires forall c <- bindings | c != b && Meets(c, ask.who) :: Outranks(b, c)
    ensures got == if b.ip in t && now <= t[b.ip].expiry && t[b.ip].Key() != ask.who.Key() then None else Some(b.ip)
    ensures got.Some? ==> t' == t[b.ip := Lease(b.ip, ask.who.mac, ask.who.clientID, ask.who.port,
                                                now + cfg.leaseTime, true)]
  {
    var best, own :|
      && IsBest(bindings, ask.who, best) && IsOwn(t, ask.who.Key(), now, own)
      && Picks(t, cfg, bindings, ask, now, best, own, got) && t' == Booked(t, cfg, ask.who, now, got, best.Some?);
    MeetsIff(b, ask.who);
    ScoreIs(b);
    if best.Some? {
      MeetsIff(best.value, ask.who);
      ScoreIs(best.value);
    }
  }

  /** No binding names the client, and it holds no live lease outside the bound addresses. */
  predicate Newcomer(t: Table, bindings: set<Binding>, who: Client, now: int) {
    && (forall b <- bindings :: !Meets(b, who))
    && (forall ip <- t | now <= t[ip].expiry && t[ip].Key() == who.Key() :: exists b <- bindings :: b.ip == ip)
  }

  /** A pool address that is neither the gateway's nor bound. */
  predicate InPool(cfg: Config, bindings: set<Binding>, ip: nat) {
    cfg.start <= ip <= cfg.end && ip != cfg.gateway && forall b <- bindings :: b.ip != ip
  }

  /**
   A newcomer gets the address it asks for if and only if that is in the pool and under no live
   lease of another client, or it happens to be the first free one, which it gets otherwise.
   */
  lemma NewcomerGets(t: Table, cfg: Config, bindings: set<Binding>, ask: Ask, now: int, t': Table, got: Option<nat>)
    requires Selects(t, cfg, bindings, ask, now, t', got) && Newcomer(t, bindings, ask.who, now)
    ensures var grant := ask.requested.Some? && InPool(cfg, bindings, ask.requested.value)
                         && !(ask.requested.value in t && now <= t[ask.requested.value].expiry
                              && t[ask.requested.value].Key() != ask.who.Key());
            && (grant ==> got == ask.requested)
            && (!grant && got.Some? ==>
                  && InPool(cfg, bindings, got.value) && !(got.value in t && now <= t[got.value].expiry)
                  && forall ip: nat | InPool(cfg, bindings, ip) && ip < got.value :: ip in t && now <= t[ip].expiry)
            && (got.None? ==>
                  !grant && forall ip: nat | InPool(cfg, bindings, ip) :: ip in t && now <= t[ip].expiry)
    ensures got.Some? ==> t' == t[got.value := Lease(got.value, ask.who.mac, ask.who.clientID, ask.who.port,
                                                     now + cfg.leaseTime, false)]
  {
    var best, own :|
      && IsBest(bindings, ask.who, best) && IsOwn(t, ask.who.Key(), now, own)
      && Picks(t, cfg, bindings, ask, now, best, own, got) && t' == Booked(t, cfg, ask.who, now, got, best.Some?);
    if best.Some? { MeetsIff(best.value, ask.who); }
    forall ip: nat
      ensures InPool(cfg, bindings, ip) <==> Offerable(cfg, bindings, ip)
    {
    }
    forall ip: nat | InPool(cfg, bindings, ip)
      ensures Taken(t, Bound(bindings) + {cfg.gateway}, now, ip) <==> ip in t && now <= t[ip].expiry
    {
    }
  }

  // ------------------------------------------------------------- the server

  /** The bindings of the map, in some order. */
  method Listed(statics: map<string, Binding>) returns (bindings: seq<Binding>)
    ensures Elements(bindings) == statics.Values
  {
    bindings := [];
    var todo := statics.Keys;
    while todo != {}
      invariant todo <= statics.Keys
      invariant Elements(bindings) == set id <- statics.Keys - todo :: statics[id]
      decreases |todo|
    {
      var id :| id in todo;
      assert Elements(bindings + [statics[id]]) == Elements(bindings) + {statics[id]};
      bindings := bindings + [statics[id]];
      todo := todo - {id};
    }
    assert statics.Keys - {} == statics.Keys;
  }

  method BoundIPs(bindings: seq<Binding>) returns (ips: set<nat>)
    ensures ips == Bound(Elements(bindings))
  {
    ips := {};
    for i := 0 to |bindings|
      invariant ips == Bound(Elements(bindings[..i]))
    {
      assert Elements(bindings[..i + 1]) == Elements(bindings[..i]) + {bindings[i]};
      ips := ips + {bindings[i].ip};
    }
    assert bindings[..|bindings|] == bindings;
  }

  class Server {
    const table: LeaseTable
    var cfg: Config
    var statics: map<string, Binding>

    constructor (cfg: Config)
      ensures this.cfg == cfg && statics == map[] && fresh(table) && table.leases == map[]
    {
      table := new LeaseTable();
      this.cfg := cfg;
      statics := map[];
    }

    method SelectIP(ask: Ask, now: int) returns (got: Option<nat>)
      requires Keyed(table.leases)
      modifies table
      ensures Keyed(table.leases)
      ensures Selects(old(table.leases), cfg, statics.Values, ask, now, table.leases, got)
    {
      hide IsBest, IsFirstFree, Keyed, Elements;
      var who := ask.who;
      var bindings := Listed(statics);
      var staticIPs := BoundIPs(bindings);
      var lease := NewLease(cfg, who, 0, false, now);
      var best := MatchBinding(bindings, who);
      ghost var t := table.leases;
      if best.Some? {
        ghost var own := SomeOwn(t, who.Key(), now);
        var used := table.InUseByOther(best.value.ip, who, now);
        if used {
          got := None;
        } else {
          table.Set(lease.(ip := best.value.ip, fixed := true));
          got := Some(best.value.ip);
        }
        Selected(t, cfg, statics.Values, ask, now, best, own, got, table.leases);
        return;
      }
      var cur := table.ByClient(who, now);
      ghost var own := if cur.None? then None else Some(cur.value.ip);
      if cur.Some? && cur.value.ip !in staticIPs {
        table.Set(lease.(ip := cur.value.ip));
        got := Some(cur.value.ip);
        Selected(t, cfg, statics.Values, ask, now, best, own, got, table.leases);
        return;
      }
      if ask.requested.Some? {
        var rip := ask.requested.value;
        var used := table.InUseByOther(rip, who, now);
        if rip <= cfg.end && cfg.start <= rip && rip != cfg.gateway && rip !in staticIPs && !used {
          table.Set(lease.(ip := rip));
          got := Some(rip);
          Selected(t, cfg, statics.Values, ask, now, best, own, got, table.leases);
          return;
        }
      }
      got := table.Allocate(cfg.start, cfg.end, staticIPs + {cfg.gateway}, lease, now);
      Selected(t, cfg, statics.Values, ask, now, best, own, got, table.leases);
    }

    /** An offer, or silence when there is nothing to offer. */
    method ReplyToDiscover(ask: Ask, now: int) returns (reply: Reply, ghost got: Option<nat>)
      requires Keyed(table.leases)
      modifies table
      ensures Keyed(table.leases)
      ensures Selects(old(table.leases), cfg, statics.Values, ask, now, table.leases, got)
      ensures reply == if got.None? then Silent else Offer(got.value)
    {
      var ip := SelectIP(ask, now);
      got := ip;
      reply := if ip.None? then Silent else Offer(ip.value);
    }

    /** An acknowledgement exactly when the selection gives the address the client names; it books in either case. */
    method ReplyToRequest(ask: Ask, now: int) returns (reply: Reply, ghost got: Option<nat>)
      requires Keyed(table.leases)
      modifies table
      ensures Keyed(table.leases)
      ensures Wanted(ask).None? ==> reply == Nak && table.leases == old(table.leases)
      ensures Wanted(ask).Some? ==>
                && Selects(old(table.leases), cfg, statics.Values, ask, now, table.leases, got)
                && reply == if got == Wanted(ask) then Ack(got.value) else Nak
      ensures reply.Ack? <==>
              && got.Some? && got.value != 0 && reply == Ack(got.value)
              && got == if ask.requested.Some? && ask.requested.value != 0 then ask.requested else ask.current
    {
      got := None;
      var want := ask.requested;
      if want.None? || want.value == 0 {
        want := ask.current;
        if want.None? || want.value == 0 {
          return Nak, None;
        }
      }
      var ip := SelectIP(ask, now);
      got := ip;
      if ip.None? || ip != want {
        return Nak, ip;
      }
      return Ack(ip.value), ip;
    }
  }

  /** The address a REQUEST names: option 50, else ciaddr. */
  function Wanted(ask: Ask): Option<nat> {
    if ask.requested.Some? && ask.requested.value != 0 then ask.requested
    else if ask.current.Some? && ask.current.value != 0 then ask.current
    else None
  }

  lemma SomeOwn(t: Table, key: string, now: int) returns (own: Option<nat>)
    ensures IsOwn(t, key, now, own)
  {
    if ip :| ip in t && Held(t, ip, key, now) { own := Some(ip); } else { own := None; }
  }

  lemma Selected(t: Table, cfg: Config, bindings: set<Binding>, ask: Ask, now: int,
                 best: Option<Binding>, own: Option<nat>, got: Option<nat>, t': Table)
    requires IsBest(bindings, ask.who, best) && IsOwn(t, ask.who.Key(), now, own)
    requires Picks(t, cfg, bindings, ask, now, best, own, got)
    requires t' == Booked(t, cfg, ask.who, now, got, best.Some?)
    ensures Selects(t, cfg, bindings, ask, now, t', got)
  {
  }

  // --------------------------------------------------------------- whole runs

  datatype Dhcp = Dhcp(now: int, leases: Table, cfg: Config, statics: map<string, Binding>)

  datatype Step =
    | Elapse(time: nat) | Serve(ask: Ask, got: Option<nat>) | Sweep
    | Release(ip: nat) | Decline(ip: nat) | PortDown(port: string)
    | Configure(cfg: Config) | Rebind(statics: map<string, Binding>)

  /** A placeholder holds a declined address for a lease time. */
  const DECLINED := Client("", "declined", "")

  /** What the server accepts as configuration. */
  predicate Usable(cfg: Config) { cfg.enabled ==> cfg.start <= cfg.end && 0 < cfg.leaseTime }

  ghost predicate Next(s: Dhcp, a: Step, s': Dhcp) {
    match a
    case Elapse(d) => s' == s.(now := s.now + d)
    case Serve(ask, got) =>
      s.cfg.enabled && s' == s.(leases := s'.leases)
      && Selects(s.leases, s.cfg, s.statics.Values, ask, s.now, s'.leases, got)
    case Sweep => s' == s.(leases := Swept(s.leases, s.now))
    case Release(ip) => s' == s.(leases := s.leases - {ip})
    case Decline(ip) => s.cfg.enabled && s' == s.(leases := s.leases[ip := NewLease(s.cfg, DECLINED, ip, false, s.now)])
    case PortDown(port) => s' == s.(leases := WithoutPort(s.leases, port))
    case Configure(cfg) => Usable(cfg) && s' == s.(cfg := cfg)
    case Rebind(statics) => s' == s.(statics := statics)
  }

  /** The steps that end a lease before its time. */
  predicate Ends(s: Dhcp, a: Step, ip: nat) {
    match a
    case Release(x) => x == ip
    case Decline(x) => x == ip
    case PortDown(port) => ip in s.leases && s.leases[ip].port == port
    case _ => false
  }

  predicate Holds(s: Dhcp, ip: nat, key: string) { Held(s.leases, ip, key, s.now) }

  predicate Inv(s: Dhcp) { Keyed(s.leases) && Usable(s.cfg) }

  lemma StepInv(s: Dhcp, a: Step, s': Dhcp)
    requires Inv(s) && Next(s, a, s')
    ensures Inv(s')
  {
    if a.Serve? { SelectsSafely(s.leases, s.cfg, s.statics.Values, a.ask, s.now, s'.leases, a.got); }
  }

  /**
   A live lease stays with its holder through every step that neither ends it nor outlasts it,
   and while it lasts nobody else is given the address.
   */
  lemma HoldStep(s: Dhcp, a: Step, s': Dhcp, ip: nat, key: string)
    requires Inv(s) && Next(s, a, s') && Holds(s, ip, key) && !Ends(s, a, ip)
    ensures ip in s'.leases && s'.leases[ip].Key() == key
    ensures !a.Elapse? ==> Holds(s', ip, key)
    ensures a.Elapse? && s'.now <= s.leases[ip].expiry ==> Holds(s', ip, key)
    ensures a.Serve? && a.got == Some(ip) ==> a.ask.who.Key() == key
  {
    if a.Serve? {
      SelectsSafely(s.leases, s.cfg, s.statics.Values, a.ask, s.now, s'.leases, a.got);
      if a.got.Some? && a.got.value != ip {
        assert ip in s.leases - {a.got.value};
      }
    }
  }

  ghost predicate Run(steps: seq<Step>, states: seq<Dhcp>) {
    && |states| == |steps| + 1 && Inv(states[0])
    && forall i | 0 <= i < |steps| :: Next(states[i], steps[i], states[i + 1])
  }

  lemma {:induction false} RunInv(steps: seq<Step>, states: seq<Dhcp>, n: nat)
    requires Run(steps, states) && n <= |steps|
    ensures Inv(states[n])
  {
    hide Next, Inv;
    if 0 < n {
      RunInv(steps, states, n - 1);
      StepInv(states[n - 1], steps[n - 1], states[n]);
    }
  }

  /** Step k ends the holder's lease on ip, or lets it run out. */
  predicate Over(steps: seq<Step>, states: seq<Dhcp>, k: nat, ip: nat, key: string)
    requires |states| == |steps| + 1 && k < |steps|
  {
    && Holds(states[k], ip, key)
    && (Ends(states[k], steps[k], ip) || (steps[k].Elapse? && states[k].leases[ip].expiry < states[k + 1].now))
  }

  predicate Gives(a: Step, who: Client, ip: nat) { a.Serve? && a.ask.who == who && a.got == Some(ip) }

  /** Held from state i on, the address is still held at state j unless some step in between ended it. */
  lemma {:induction false} HeldOn(steps: seq<Step>, states: seq<Dhcp>, i: nat, j: nat, ip: nat, key: string)
    requires Run(steps, states) && i <= j <= |steps| && Holds(states[i], ip, key)
    requires forall k: nat | i <= k < j :: !Over(steps, states, k, ip, key)
    ensures Holds(states[j], ip, key)
  {
    hide Next, Inv, Holds, Ends;
    if i < j {
      HeldOn(steps, states, i, j - 1, ip, key);
      RunInv(steps, states, j - 1);
      assert !Over(steps, states, j - 1, ip, key);
      HoldsLive(states[j - 1], ip, key);
      HoldStep(states[j - 1], steps[j - 1], states[j], ip, key);
    }
  }

  lemma HoldsLive(s: Dhcp, ip: nat, key: string)
    requires Holds(s, ip, key)
    ensures ip in s.leases
  {
  }

  /** What a selection gives is held by the client that asked. */
  lemma GivenHeld(s: Dhcp, a: Step, s': Dhcp, who: Client, ip: nat)
    requires Inv(s) && Next(s, a, s') && Gives(a, who, ip)
    ensures Holds(s', ip, who.Key())
  {
    SelectsSafely(s.leases, s.cfg, s.statics.Values, a.ask, s.now, s'.leases, a.got);
  }

  /**
   Over every run: an address given to one client and later to another was in between
   released, declined, dropped with its port, or its lease ran out.
   */
  lemma ExclusiveUntilOver(steps: seq<Step>, states: seq<Dhcp>, i: nat, j: nat, ip: nat, c: Client, d: Client)
    requires Run(steps, states) && i < j < |steps|
    requires Gives(steps[i], c, ip) && Gives(steps[j], d, ip) && c.Key() != d.Key()
    ensures exists k: nat | i < k < j :: Over(steps, states, k, ip, c.Key())
  {
    hide Next, Inv, Holds, Over;
    RunInv(steps, states, i);
    GivenHeld(states[i], steps[i], states[i + 1], c, ip);
    if forall k: nat | i < k < j :: !Over(steps, states, k, ip, c.Key()) {
      HeldOn(steps, states, i + 1, j, ip, c.Key());
      RunInv(steps, states, j);
      HoldStep(states[j], steps[j], states[j + 1], ip, c.Key());
      assert false;
    }
  }

  /** What every step but a selection leaves in the table. */
  lemma StepLeaves(s: Dhcp, a: Step, s': Dhcp, ip: nat)
    requires Next(s, a, s') && !a.Serve?
    ensures ip in s'.leases <==>
            || (a.Decline? && a.ip == ip)
            || (&& ip in s.leases
                && !(a.Sweep? && s.leases[ip].expiry < s.now)
                && !(a.Release? && a.ip == ip)
                && !(a.PortDown? && s.leases[ip].port == a.port))
    ensures ip in s'.leases && !(a.Decline? && a.ip == ip) ==> s'.leases[ip] == s.leases[ip]
  {}

  /** A declined address is given to nobody until the hold on it is over. */
  lemma DeclinedWithheld(steps: seq<Step>, states: seq<Dhcp>, i: nat, j: nat, ip: nat, c: Client)
    requires Run(steps, states) && i < j < |steps|
    requires steps[i] == Decline(ip) && Gives(steps[j], c, ip) && c.Key() != DECLINED.Key()
    ensures exists k: nat | i < k < j :: Over(steps, states, k, ip, DECLINED.Key())
  {
    RunInv(steps, states, i);
    DeclineHolds(states[i], states[i + 1], ip);
    hide Next, Inv, Holds, Over;
    if forall k: nat | i < k < j :: !Over(steps, states, k, ip, DECLINED.Key()) {
      HeldOn(steps, states, i + 1, j, ip, DECLINED.Key());
      RunInv(steps, states, j);
      HoldStep(states[j], steps[j], states[j + 1], ip, DECLINED.Key());
      assert false;
    }
  }

  lemma DeclineHolds(s: Dhcp, s': Dhcp, ip: nat)
    requires Inv(s) && Next(s, Decline(ip), s')
    ensures Holds(s', ip, DECLINED.Key()) && s'.leases[ip].expiry == s.now + s.cfg.leaseTime
  {}

  // ----------------------------------------------------- a fixed configuration

  /** Pool and bindings stay as they are, and no binding applies to any request of this client. */
  predicate Plain(a: Step, statics: map<string, Binding>, key: string) {
    && !a.Configure? && !a.Rebind?
    && (a.Serve? && a.ask.who.Key() == key ==> forall b <- statics.Values :: !b.Applies(a.ask.who))
  }

  /** The client's leases are on pool addresses, and at most one of them is live. */
  ghost predicate Single(s: Dhcp, key: string) {
    && (forall ip <- s.leases | s.leases[ip].Key() == key :: Offerable(s.cfg, s.statics.Values, ip))
    && (forall x: nat, y: nat | Holds(s, x, key) && Holds(s, y, key) :: x == y)
  }

  /** What a client without a binding gets: its own address, else one that is free; nothing only if none is free. */
  lemma PlainServe(s: Dhcp, a: Step, s': Dhcp, key: string)
    requires Inv(s) && Next(s, a, s') && a.Serve? && a.ask.who.Key() == key
    requires Plain(a, s.statics, key) && Single(s, key)
    ensures forall ip: nat | Holds(s, ip, key) :: a.got == Some(ip)
    ensures a.got.Some? ==> Offerable(s.cfg, s.statics.Values, a.got.value)
    ensures a.got.None? ==>
              forall ip: nat | Offerable(s.cfg, s.statics.Values, ip) :: ip in s.leases && s.leases[ip].Live(s.now)
  {
    var bindings := s.statics.Values;
    var best, own :|
      && IsBest(bindings, a.ask.who, best)
      && IsOwn(s.leases, key, s.now, own)
      && Picks(s.leases, s.cfg, bindings, a.ask, s.now, best, own, a.got)
      && s'.leases == Booked(s.leases, s.cfg, a.ask.who, s.now, a.got, best.Some?);
    assert best.None?;
    if own.Some? {
      assert Holds(s, own.value, key);
    } else if a.got.None? {
      forall ip: nat | Offerable(s.cfg, bindings, ip)
        ensures ip in s.leases && s.leases[ip].Live(s.now)
      {
        assert Taken(s.leases, Bound(bindings) + {s.cfg.gateway}, s.now, ip);
      }
    }
  }

  lemma SingleStep(s: Dhcp, a: Step, s': Dhcp, key: string)
    requires Inv(s) && Next(s, a, s') && Plain(a, s.statics, key) && key != DECLINED.Key()
    requires Single(s, key)
    ensures Single(s', key) && s'.statics == s.statics && s'.cfg == s.cfg
  {
    if a.Serve? {
      SelectsSafely(s.leases, s.cfg, s.statics.Values, a.ask, s.now, s'.leases, a.got);
      if a.got.Some? && a.ask.who.Key() == key {
        PlainServe(s, a, s', key);
        ServedOnly(s, s', a.got.value, key);
      } else if a.got.Some? {
        ServedOther(s, s', a.got.value, key);
      }
    } else {
      FewerHeld(s, s', key);
    }
  }

  /** A step that books nothing for the client leaves it with some of what it had. */
  lemma FewerHeld(s: Dhcp, s': Dhcp, key: string)
    requires Single(s, key) && s'.cfg == s.cfg && s'.statics == s.statics && s.now <= s'.now
    requires forall ip <- s'.leases | s'.leases[ip].Key() == key :: ip in s.leases && s.leases[ip] == s'.leases[ip]
    ensures Single(s', key)
  {
    assert forall ip: nat | Holds(s', ip, key) :: Holds(s, ip, key);
  }

  lemma ServedOther(s: Dhcp, s': Dhcp, got: nat, key: string)
    requires Single(s, key) && s'.cfg == s.cfg && s'.statics == s.statics && s.now == s'.now
    requires got in s'.leases && s'.leases[got].Key() != key && s'.leases - {got} == s.leases - {got}
    ensures Single(s', key)
  {
    forall ip <- s'.leases | s'.leases[ip].Key() == key
      ensures ip in s.leases && s.leases[ip] == s'.leases[ip]
    {
      assert ip in s'.leases - {got};
    }
    FewerHeld(s, s', key);
  }

  lemma ServedOnly(s: Dhcp, s': Dhcp, got: nat, key: string)
    requires Single(s, key) && s'.cfg == s.cfg && s'.statics == s.statics && s.now == s'.now
    requires got in s'.leases && s'.leases[got].Key() == key && s'.leases - {got} == s.leases - {got}
    requires Offerable(s.cfg, s.statics.Values, got)
    requires forall ip: nat | Holds(s, ip, key) :: ip == got
    ensures Single(s', key)
  {
    forall ip <- s'.leases | ip != got
      ensures ip in s.leases && s.leases[ip] == s'.leases[ip]
    {
      assert ip in s'.leases - {got};
    }
    assert forall ip: nat | Holds(s', ip, key) && ip != got :: Holds(s, ip, key);
  }

  predicate PlainRun(steps: seq<Step>, states: seq<Dhcp>, key: string)
    requires states != []
  {
    && states[0].leases == map[] && key != DECLINED.Key()
    && forall a <- steps :: Plain(a, states[0].statics, key)
  }

  lemma {:induction false} SingleRun(steps: seq<Step>, states: seq<Dhcp>, key: string, n: nat)
    requires Run(steps, states) && PlainRun(steps, states, key) && n <= |steps|
    ensures Single(states[n], key) && states[n].statics == states[0].statics && states[n].cfg == states[0].cfg
  {
    if 0 < n {
      hide Next, Inv, Single, Plain;
      SingleRun(steps, states, key, n - 1);
      RunInv(steps, states, n - 1);
      SingleStep(states[n - 1], steps[n - 1], states[n], key);
    }
  }

  /**
   With pool and bindings fixed since an empty table, a client no binding applies to holds at
   most one live lease, is only given pool addresses that are neither the gateway's nor bound,
   and is refused only when every such address is under a live lease.
   */
  lemma PlainClient(steps: seq<Step>, states: seq<Dhcp>, key: string, n: nat)
    requires Run(steps, states) && PlainRun(steps, states, key) && n < |steps|
    ensures forall x: nat, y: nat | Holds(states[n], x, key) && Holds(states[n], y, key) :: x == y
    ensures steps[n].Serve? && steps[n].ask.who.Key() == key ==>
              var s, got := states[n], steps[n].got;
              && (got.Some? ==> Offerable(s.cfg, s.statics.Values, got.value))
              && (got.None? ==> forall ip: nat | Offerable(s.cfg, s.statics.Values, ip) ::
                  ip in s.leases && s.leases[ip].Live(s.now))
  {
    hide Next, Inv, Plain, Offerable;
    SingleRun(steps, states, key, n);
    RunInv(steps, states, n);
    if steps[n].Serve? && steps[n].ask.who.Key() == key {
      PlainServe(states[n], steps[n], states[n + 1], key);
    }
  }

  /** Such a client gets the same address on every re-ask until its lease is over. */
  lemma SameAddress(steps: seq<Step>, states: seq<Dhcp>, c: Client, i: nat, j: nat, ip: nat)
    requires Run(steps, states) && PlainRun(steps, states, c.Key()) && i < j < |steps|
    requires Gives(steps[i], c, ip) && steps[j].Serve? && steps[j].ask.who.Key() == c.Key()
    requires forall k: nat | i < k < j :: !Over(steps, states, k, ip, c.Key())
    ensures steps[j].got == Some(ip)
  {
    hide Next, Inv, Plain, Holds, Single, Over, Offerable;
    RunInv(steps, states, i);
    GivenHeld(states[i], steps[i], states[i + 1], c, ip);
    HeldOn(steps, states, i + 1, j, ip, c.Key());
    SingleRun(steps, states, c.Key(), j);
    RunInv(steps, states, j);
    PlainServe(states[j], steps[j], states[j + 1], c.Key());
  }
}
