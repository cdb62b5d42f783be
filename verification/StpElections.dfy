/** The election of one bridge, port by port in a given order, and what the order can change. */
module StpElections {
  import opened StpVectors

  /** What the loop over the ports has elected after those in `order`: the vector and its port. */
  function Pick(v: BridgeView, order: seq<string>): (Vector, string) {
    if order == [] then (v.Own(), "")
    else
      var sofar, p := Pick(v, order[..|order| - 1]), order[|order| - 1];
      if v.Usable(p) && v.Candidate(p).Better(sofar.0) then (v.Candidate(p), p) else sofar
  }

  lemma PickSnoc(v: BridgeView, order: seq<string>, p: string)
    ensures var sofar := Pick(v, order);
            Pick(v, order + [p]) == if v.Usable(p) && v.Candidate(p).Better(sofar.0) then (v.Candidate(p), p) else sofar
  {
    assert (order + [p])[..|order|] == order;
  }

  /** A least one of the bridge's own claim and the candidates seen. */
  ghost predicate Least(v: BridgeView, seen: seq<string>, best: Vector, at: string) {
    && (if at == "" then best == v.Own() else v.Usable(at) && best == v.Candidate(at) && best.Better(v.Own()))
    && forall p <- seen | v.Usable(p) :: !v.Candidate(p).Better(best)
  }

  lemma {:induction false} PickLeast(v: BridgeView, order: seq<string>)
    requires "" !in order
    ensures Least(v, order, Pick(v, order).0, Pick(v, order).1)
  {
    if order != [] { PickLeast(v, order[..|order| - 1]); }
  }

  /** The ports, each once. */
  ghost predicate Visits(v: BridgeView, order: seq<string>) {
    && (forall p :: p in order <==> p in v.ports)
    && forall i, j | 0 <= i < j < |order| :: order[i] != order[j]
  }

  /** The bridge after a recompute that visits its ports in this order. */
  function RecomputedIn(v: BridgeView, order: seq<string>): BridgeView {
    var pick := Pick(v, order);
    var u := v.(rootID := pick.0.rootID, rootCost := pick.0.cost, rootPort := pick.1);
    u.(ports := map p | p in v.ports :: v.ports[p].(role := u.RoleFor(p)))
  }

  /** w has the ports of v, but for their roles. */
  ghost predicate SameInputs(v: BridgeView, w: BridgeView) {
    && w.id == v.id && w.ports.Keys == v.ports.Keys
    && forall p | p in v.ports :: w.ports[p] == v.ports[p].(role := w.ports[p].role)
  }

  /** Whatever the order, this is a recomputed bridge. */
  lemma RecomputedInIs(v: BridgeView, order: seq<string>)
    requires Visits(v, order) && "" !in v.ports
    ensures var w := RecomputedIn(v, order);
            SameInputs(v, w) && w.Recomputed() && w.rootPort == Pick(v, order).1
  {
    var w, pick := RecomputedIn(v, order), Pick(v, order);
    PickLeast(v, order);
    SameCandidates(v, w);
    assert w.Best() == pick.0;
    var u := v.(rootID := pick.0.rootID, rootCost := pick.0.cost, rootPort := pick.1);
    assert forall p | p in w.ports :: w.RoleFor(p) == u.RoleFor(p);
  }

  /** Another port offers the very vector that was elected. */
  predicate Tie(v: BridgeView, p: string) {
    v.Usable(p) && p != v.rootPort && v.rootPort != "" && v.Candidate(p) == v.Best()
  }

  lemma SameCandidates(v: BridgeView, w: BridgeView)
    requires SameInputs(v, w)
    ensures w.Own() == v.Own()
    ensures forall p :: w.Usable(p) == v.Usable(p)
    ensures forall p | v.Usable(p) :: w.Candidate(p) == v.Candidate(p)
  {}

  /** Recomputing on unchanged information elects the same vector, and on the same port gives the same roles. */
  lemma SameElection(v: BridgeView, w: BridgeView)
    requires v.Recomputed() && SameInputs(v, w) && w.Recomputed() && "" !in v.ports
    ensures w.Best() == v.Best() && w.rootID == v.rootID && w.rootCost == v.rootCost
    ensures w.rootPort == v.rootPort ==> w == v
    ensures w.rootPort != v.rootPort ==> Tie(v, w.rootPort)
  {
    SameCandidates(v, w);
    BestLeast(v);
    BestLeast(w);
    if w.rootPort == v.rootPort {
      assert forall p | p in v.ports :: w.RoleFor(p) == v.RoleFor(p);
      assert w.ports == v.ports;
    }
  }

  lemma BestLeast(v: BridgeView)
    requires v.Elected() && "" !in v.ports
    ensures v.rootPort == "" ==> v.Best() == v.Own()
    ensures v.rootPort != "" ==> v.Usable(v.rootPort) && v.Best() == v.Candidate(v.rootPort) && v.Best().Better(v.Own())
    ensures !v.Own().Better(v.Best())
    ensures forall p | v.Usable(p) :: !v.Candidate(p).Better(v.Best())
  {}

  /** A port offering the elected vector is elected if it is visited first. */
  lemma {:induction false} PickFirst(v: BridgeView, p: string, rest: seq<string>)
    requires v.Elected() && "" !in v.ports && v.rootPort != "" && v.Usable(p) && v.Candidate(p) == v.Best()
    ensures Pick(v, [p] + rest) == (v.Best(), p)
  {
    BestLeast(v);
    if rest == [] {
      assert [p] + rest == [] + [p];
      PickSnoc(v, [], p);
    } else {
      var front, q := rest[..|rest| - 1], rest[|rest| - 1];
      PickFirst(v, p, front);
      assert [p] + rest == ([p] + front) + [q];
      PickSnoc(v, [p] + front, q);
    }
  }

  /** The elements of a set, each once. */
  lemma {:induction false} Listing(s: set<string>) returns (order: seq<string>)
    ensures (forall p :: p in order <==> p in s) && forall i, j | 0 <= i < j < |order| :: order[i] != order[j]
    decreases s
  {
    if s == {} {
      order := [];
    } else {
      var p :| p in s;
      var rest := Listing(s - {p});
      order := [p] + rest;
      assert forall i | 0 <= i < |rest| :: rest[i] in rest;
    }
  }

  /** An order that visits p first. */
  lemma FirstVisit(v: BridgeView, p: string) returns (order: seq<string>)
    requires p in v.ports
    ensures Visits(v, order) && order != [] && order == [p] + order[1..]
  {
    var rest := Listing(v.ports.Keys - {p});
    order := [p] + rest;
    assert order[1..] == rest;
  }

  /**
   A recompute on unchanged information leaves a bridge exactly as it is, in every order of
   visiting its ports, if and only if no other port ties with its root port.
   */
  lemma RecomputeKeepsIff(v: BridgeView)
    requires v.Recomputed() && "" !in v.ports
    ensures (forall order | Visits(v, order) :: RecomputedIn(v, order) == v) <==> !(exists p :: Tie(v, p))
  {
    if p :| Tie(v, p) {
      var order := FirstVisit(v, p);
      PickFirst(v, p, order[1..]);
      assert RecomputedIn(v, order).rootPort == p;
    } else {
      forall order | Visits(v, order)
        ensures RecomputedIn(v, order) == v
      {
        RecomputedInIs(v, order);
        SameElection(v, RecomputedIn(v, order));
      }
    }
  }

  // ------------------------------------------------------- field by field

  function Fields(v: Vector): seq<nat> { [v.rootID, v.cost, v.bridgeID, v.portID] }

  /** The first difference is at place k, and a is less there. */
  predicate FirstLess(a: Vector, b: Vector, k: nat) {
    k < 4 && Fields(a)[..k] == Fields(b)[..k] && Fields(a)[k] < Fields(b)[k]
  }

  /** Vectors compare by root, then cost, then bridge, then port: the first difference decides. */
  lemma BetterIff(a: Vector, b: Vector)
    ensures a.Better(b) <==> exists k: nat :: FirstLess(a, b, k)
  {
    var x, y := Fields(a), Fields(b);
    if a.Better(b) {
      var k := if x[0] != y[0] then 0 else if x[1] != y[1] then 1 else if x[2] != y[2] then 2 else 3;
      assert FirstLess(a, b, k);
    }
    if k: nat :| FirstLess(a, b, k) {
      assert 0 < k ==> x[..k][0] == y[..k][0];
      assert 1 < k ==> x[..k][1] == y[..k][1];
      assert 2 < k ==> x[..k][2] == y[..k][2];
    }
  }

  /**
   The root port of an elected bridge against any port that heard another bridge: the smallest root
   wins, then the least cost through the port, then the smallest sender, then its smallest port.
   */
  lemma RootPortFirst(v: BridgeView, p: string)
    requires v.Elected() && v.rootPort != ""
    requires p in v.ports && v.ports[p].info.Some? && v.ports[p].info.value.bridgeID != v.id
    ensures v.rootPort in v.ports && v.ports[v.rootPort].info.Some?
    ensures var r, i := v.ports[v.rootPort].info.value, v.ports[p].info.value;
            var c := (i.cost + v.ports[p].cost) % COST_MODULUS;
            && r.bridgeID != v.id && v.rootID == r.rootID
            && v.rootCost == (r.cost + v.ports[v.rootPort].cost) % COST_MODULUS
            && v.rootID <= i.rootID
            && (i.rootID == v.rootID ==> v.rootCost <= c)
            && (i.rootID == v.rootID && c == v.rootCost ==> r.bridgeID <= i.bridgeID)
            && (i.rootID == v.rootID && c == v.rootCost && i.bridgeID == r.bridgeID ==> r.portID <= i.portID)
  {
    assert !v.Candidate(p).Better(v.Best());
  }

  /**
   A bridge claims to be the root exactly when every port that heard another bridge heard of a root
   with a larger ID, or of this bridge itself from a larger ID or at a cost.
   */
  lemma ClaimsRootIff(v: BridgeView)
    requires v.Elected() && "" !in v.ports
    ensures v.rootPort == "" ==> v.rootID == v.id && v.rootCost == 0
    ensures v.rootPort == "" <==>
            forall p | p in v.ports && v.ports[p].info.Some? && v.ports[p].info.value.bridgeID != v.id ::
              var i := v.ports[p].info.value;
              i.rootID > v.id
              || (i.rootID == v.id && ((i.cost + v.ports[p].cost) % COST_MODULUS > 0 || i.bridgeID > v.id))
  {
    if v.rootPort == "" {
      forall p | p in v.ports && v.ports[p].info.Some? && v.ports[p].info.value.bridgeID != v.id
        ensures var i := v.ports[p].info.value;
                i.rootID > v.id
                || (i.rootID == v.id && ((i.cost + v.ports[p].cost) % COST_MODULUS > 0 || i.bridgeID > v.id))
      {
        assert !v.Candidate(p).Better(v.Best());
      }
    }
  }

  /**
   Roles after a recompute: the root port, and apart from it a port is designated exactly when it
   heard nothing or the bridge's own vector comes first; otherwise it is blocked.
   */
  lemma RoleIff(v: BridgeView, p: string)
    requires v.Recomputed() && p in v.ports
    ensures v.ports[p].role == RootRole <==> p == v.rootPort
    ensures v.ports[p].role == DesignatedRole <==>
            && p != v.rootPort
            && (v.ports[p].info.Some? ==>
                  var i := v.ports[p].info.value;
                  && v.rootID <= i.rootID
                  && (v.rootID == i.rootID ==> v.rootCost <= i.cost)
                  && (v.rootID == i.rootID && v.rootCost == i.cost ==> v.id <= i.bridgeID)
                  && (v.rootID == i.rootID && v.rootCost == i.cost && v.id == i.bridgeID ==>
                        v.ports[p].portID < i.portID))
  {}
}
