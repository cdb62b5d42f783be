/** Static bindings and the lease table of one address family. Addresses and times are numbers. */
module Leases {
  import opened Wrappers

  // ---------------------------------------------------------------- bindings

  function LowerChar(c: char): char { if 'A' <= c <= 'Z' then c - 'A' + 'a' else c }

  function Lower(s: string): string { seq(|s|, i requires 0 <= i < |s| => LowerChar(s[i])) }

  predicate EqualFold(a: string, b: string) { Lower(a) == Lower(b) }

  /** Conditions that are not set are wildcards. */
  datatype Binding = Binding(order: int, port: Option<string>, mac: Option<string>, clientID: Option<string>, ip: nat) {
    predicate Matches(who: Client) {
      && (port.Some? ==> port.value == who.port)
      && (mac.Some? ==> EqualFold(mac.value, who.mac))
      && (clientID.Some? ==> EqualFold(clientID.value, who.clientID))
    }

    function Score(): nat {
      (if port.Some? then 1 else 0) + (if mac.Some? then 1 else 0) + if clientID.Some? then 1 else 0
    }

    predicate Applies(who: Client) { Matches(who) && 0 < Score() }

    /** Fewer conditions, or as many and a lower order. */
    predicate Yields(b: Binding) { Score() < b.Score() || (Score() == b.Score() && order <= b.order) }
  }

  /** Who asks: the switch port, the hardware address and the client identifier. */
  datatype Client = Client(port: string, mac: string, clientID: string) {
    /** What identifies a client in the lease table. */
    function Key(): string { Lower(mac) + "/" + Lower(clientID) }
  }

  /** The first slash of a key comes behind the hardware address. */
  lemma SlashBehind(c: Client, i: nat)
    requires '/' !in c.mac
    ensures |c.mac| < |c.Key()| && c.Key()[|c.mac|] == '/' && (i < |c.mac| ==> c.Key()[i] != '/')
  {}

  /** Hardware addresses hold no slash, so clients are the same exactly if address and identifier are, case aside. */
  lemma KeyIff(a: Client, b: Client)
    requires '/' !in a.mac && '/' !in b.mac
    ensures a.Key() == b.Key() <==> EqualFold(a.mac, b.mac) && EqualFold(a.clientID, b.clientID)
  {
    SlashBehind(a, |b.mac|);
    SlashBehind(b, |a.mac|);
    if a.Key() == b.Key() {
      var n := |a.mac|;
      assert Lower(a.mac) == a.Key()[..n] && Lower(b.mac) == b.Key()[..n];
      assert Lower(a.clientID) == a.Key()[n + 1..] && Lower(b.clientID) == b.Key()[n + 1..];
    }
  }

  /** The best binding for a client, or none when none applies; equals are left to the order of the list. */
  predicate IsBest(bindings: set<Binding>, who: Client, best: Option<Binding>) {
    match best
    case None => forall b <- bindings :: !b.Applies(who)
    case Some(best) => best in bindings && best.Applies(who) && forall b <- bindings | b.Applies(who) :: b.Yields(best)
  }

  function Elements<T>(s: seq<T>): set<T> { set x <- s }

  method MatchBinding(bindings: seq<Binding>, who: Client) returns (best: Option<Binding>)
    ensures IsBest(Elements(bindings), who, best)
  {
    best := None;
    var bestScore := 0;
    for i := 0 to |bindings|
      invariant IsBest(Elements(bindings[..i]), who, best)
      invariant bestScore == if best.None? then 0 else best.value.Score()
    {
      var b := bindings[i];
      assert Elements(bindings[..i + 1]) == Elements(bindings[..i]) + {b};
      var score := 0;
      if b.port.Some? {
        if b.port.value != who.port {
          continue;
        }
        score := score + 1;
      }
      if b.mac.Some? {
        if !EqualFold(b.mac.value, who.mac) {
          continue;
        }
        score := score + 1;
      }
      if b.clientID.Some? {
        if !EqualFold(b.clientID.value, who.clientID) {
          continue;
        }
        score := score + 1;
      }
      if score == 0 {
        continue;
      }
      if best.None? || score > bestScore || (score == bestScore && b.order > best.value.order) {
        best := Some(b);
        bestScore := score;
      }
    }
    assert bindings[..|bindings|] == bindings;
  }

  // -------------------------------------------------------------- the table

  datatype Lease = Lease(ip: nat, mac: string, clientID: string, port: string, expiry: int, fixed: bool) {
    function Key(): string { Client(port, mac, clientID).Key() }

    predicate Live(now: int) { now <= expiry }
  }

  type Table = map<nat, Lease>

  predicate Keyed(t: Table) { forall ip <- t :: t[ip].ip == ip }

  predicate Held(t: Table, ip: nat, key: string, now: int) { ip in t && t[ip].Live(now) && t[ip].Key() == key }

  predicate InUse(t: Table, ip: nat, key: string, now: int) { ip in t && t[ip].Live(now) && t[ip].Key() != key }

  /** An address the client holds, or none when it holds none; which one is left to the order of the map. */
  predicate IsOwn(t: Table, key: string, now: int, own: Option<nat>) {
    match own
    case None => forall ip <- t :: !Held(t, ip, key, now)
    case Some(ip) => Held(t, ip, key, now)
  }

  /** The first address from start to end that is neither skipped nor under a live lease. */
  predicate IsFirstFree(t: Table, start: nat, end: nat, skip: set<nat>, now: int, got: Option<nat>) {
    match got
    case None => forall ip | start <= ip <= end :: Taken(t, skip, now, ip)
    case Some(got) =>
      start <= got <= end && !Taken(t, skip, now, got) && forall ip | start <= ip < got :: Taken(t, skip, now, ip)
  }

  predicate Taken(t: Table, skip: set<nat>, now: int, ip: nat) { ip in skip || (ip in t && t[ip].Live(now)) }

  function Swept(t: Table, now: int): Table { map ip <- t | t[ip].Live(now) :: t[ip] }

  function WithoutPort(t: Table, port: string): Table { map ip <- t | t[ip].port != port :: t[ip] }

  class LeaseTable {
    var leases: Table

    constructor ()
      ensures leases == map[]
    {
      leases := map[];
    }

    method ByClient(who: Client, now: int) returns (own: Option<Lease>)
      requires Keyed(leases)
      ensures IsOwn(leases, who.Key(), now, if own.None? then None else Some(own.value.ip))
      ensures own.Some? ==> own.value.ip in leases && own.value == leases[own.value.ip]
    {
      var todo := leases.Keys;
      while todo != {}
        invariant todo <= leases.Keys
        invariant forall ip <- leases.Keys - todo :: !Held(leases, ip, who.Key(), now)
        decreases |todo|
      {
        var ip :| ip in todo;
        var l := leases[ip];
        if l.Key() == who.Key() && l.Live(now) {
          return Some(l);
        }
        todo := todo - {ip};
      }
      return None;
    }

    method Set(l: Lease)
      requires Keyed(leases)
      modifies this
      ensures leases == old(leases)[l.ip := l] && Keyed(leases)
    {
      leases := leases[l.ip := l];
    }

    method Release(ip: nat) returns (found: bool)
      requires Keyed(leases)
      modifies this
      ensures leases == old(leases) - {ip} && found == (ip in old(leases)) && Keyed(leases)
    {
      if ip !in leases {
        assert leases == leases - {ip};
        return false;
      }
      leases := leases - {ip};
      return true;
    }

    method ReleaseByPort(port: string)
      requires Keyed(leases)
      modifies this
      ensures leases == WithoutPort(old(leases), port) && Keyed(leases)
    {
      var todo := leases.Keys;
      while todo != {}
        invariant todo <= leases.Keys
        invariant leases == map ip <- old(leases) | ip in todo || old(leases)[ip].port != port :: old(leases)[ip]
        decreases |todo|
      {
        var ip :| ip in todo;
        if leases[ip].port == port {
          leases := leases - {ip};
        }
        todo := todo - {ip};
      }
    }

    method InUseByOther(ip: nat, who: Client, now: int) returns (used: bool)
      ensures used == InUse(leases, ip, who.Key(), now)
    {
      if ip !in leases || !leases[ip].Live(now) {
        return false;
      }
      return leases[ip].Key() != who.Key();
    }

    method ExpireSweep(now: int)
      requires Keyed(leases)
      modifies this
      ensures leases == Swept(old(leases), now) && Keyed(leases)
    {
      var todo := leases.Keys;
      while todo != {}
        invariant todo <= leases.Keys
        invariant leases == map ip <- old(leases) | ip in todo || old(leases)[ip].Live(now) :: old(leases)[ip]
        decreases |todo|
      {
        var ip :| ip in todo;
        if !leases[ip].Live(now) {
          leases := leases - {ip};
        }
        todo := todo - {ip};
      }
    }

    method Allocate(start: nat, end: nat, skip: set<nat>, l: Lease, now: int) returns (got: Option<nat>)
      requires Keyed(leases)
      modifies this
      ensures IsFirstFree(old(leases), start, end, skip, now, got)
      ensures leases == (if got.None? then old(leases) else old(leases)[got.value := l.(ip := got.value)])
              && Keyed(leases)
    {
      var ip := start;
      while ip <= end
        invariant start <= ip && forall a | start <= a < ip :: Taken(leases, skip, now, a)
        invariant leases == old(leases)
      {
        if ip !in skip && !(ip in leases && leases[ip].Live(now)) {
          leases := leases[ip := l.(ip := ip)];
          return Some(ip);
        }
        ip := ip + 1;
      }
      return None;
    }
  }
}
