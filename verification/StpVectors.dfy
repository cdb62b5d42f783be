/**
 The part of the 802.1D state that root election and role assignment read and
 write: priority vectors, and one bridge seen as its ports' stored information.
 */
module StpVectors {
  import opened Wrappers

  // Path costs are unsigned 32-bit numbers; addition wraps.
  const COST_MODULUS := 0x1_0000_0000

  /** A priority vector; lower is better, compared field by field. */
  datatype Vector = Vector(rootID: nat, cost: nat, bridgeID: nat, portID: nat) {
    predicate Better(b: Vector) {
      if rootID != b.rootID then rootID < b.rootID
      else if cost != b.cost then cost < b.cost
      else if bridgeID != b.bridgeID then bridgeID < b.bridgeID
      else portID < b.portID
    }
  }

  datatype Role = RootRole | DesignatedRole | BlockedRole

  /** One participating port: `info` is the best vector heard on its segment. */
  datatype PortView = PortView(cost: nat, portID: nat, info: Option<Vector>, role: Role)

  /** One bridge. `rootPort` is "" when the bridge believes it is the root. */
  datatype BridgeView = BridgeView(
    id: nat, ports: map<string, PortView>, rootID: nat, rootCost: nat, rootPort: string)
  {
    /** The bridge's claim to be the root itself. */
    function Own(): Vector { Vector(id, 0, id, 0) }

    /** The information of port p takes part in the election. */
    predicate Usable(p: string) {
      p in ports && ports[p].info.Some? && ports[p].info.value.bridgeID != id
    }

    /** What electing p as root port would give. */
    function Candidate(p: string): Vector
      requires Usable(p)
    {
      var info := ports[p].info.value;
      info.(cost := (info.cost + ports[p].cost) % COST_MODULUS)
    }

    /** The vector the bridge has elected. */
    function Best(): Vector {
      if Usable(rootPort) then Candidate(rootPort) else Own()
    }

    /** The elected vector is a least one among the bridge's own claim and all candidates. */
    ghost predicate Elected() {
      && (rootPort != "" ==> Usable(rootPort) && Best().Better(Own()))
      && rootID == Best().rootID && rootCost == Best().cost
      && forall p | Usable(p) :: !Candidate(p).Better(Best())
    }

    /** What the bridge advertises out of port p. */
    function Advert(p: string): Vector
      requires p in ports
    {
      Vector(rootID, rootCost, id, ports[p].portID)
    }

    predicate WinsSegment(p: string)
      requires p in ports
    {
      ports[p].info.None? || Advert(p).Better(ports[p].info.value)
    }

    function RoleFor(p: string): Role
      requires p in ports
    {
      if p == rootPort then RootRole else if WinsSegment(p) then DesignatedRole else BlockedRole
    }

    /** The state a recompute leaves behind. */
    ghost predicate Recomputed() {
      && Elected()
      && forall p | p in ports :: ports[p].role == RoleFor(p)
    }

    /** The vector sent on port p at a hello, if one is sent. */
    function Transmits(p: string): Option<Vector>
      requires p in ports
    {
      if ports[p].role == DesignatedRole && (rootPort == "" || (rootPort in ports && ports[rootPort].info.Some?))
      then Some(Advert(p)) else None
    }
  }

  /** A received vector is stored when it is the first, a refresh, or better. */
  predicate Accepts(held: Option<Vector>, heard: Vector) {
    || held.None?
    || (heard.bridgeID == held.value.bridgeID && heard.portID == held.value.portID)
    || heard.Better(held.value)
  }

  /** w differs from v in roles only. */
  ghost predicate SameButRoles(v: BridgeView, w: BridgeView) {
    && w.id == v.id && w.rootID == v.rootID && w.rootCost == v.rootCost && w.rootPort == v.rootPort
    && w.ports.Keys == v.ports.Keys
    && forall p | p in v.ports :: w.ports[p] == v.ports[p].(role := w.ports[p].role)
  }

  /** Roles take no part in the election. */
  lemma RolesAside(v: BridgeView, w: BridgeView)
    requires SameButRoles(v, w)
    ensures v.Elected() ==> w.Elected()
    ensures forall p | p in v.ports :: w.RoleFor(p) == v.RoleFor(p)
  {
    if v.Elected() {
      assert w.Usable(w.rootPort) == v.Usable(v.rootPort) && w.Best() == v.Best();
      forall p | w.Usable(p)
        ensures !w.Candidate(p).Better(w.Best())
      {
        assert v.Usable(p) && v.Candidate(p) == w.Candidate(p);
      }
    }
  }
}
