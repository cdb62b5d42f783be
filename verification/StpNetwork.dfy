/**
 A network of bridges joined by point-to-point links, and what a settled one
 looks like: one designated end per link, one agreed root, least-cost root
 paths, and no loop among the links that carry data.
 */
module StpNetwork {
  import opened Wrappers
  import opened StpVectors
  import opened CostChains
  import opened Forests

  datatype Net = Net(bridges: seq<BridgeView>, peer: map<End, End>) {
    predicate IsEnd(e: End) { e.b < |bridges| && e.p in bridges[e.b].ports }

    function Port(e: End): PortView
      requires IsEnd(e)
    {
      bridges[e.b].ports[e.p]
    }

    /** Links pair ports of bridges with different IDs; path costs are positive. */
    ghost predicate WellFormed() {
      && (forall e | e in peer :: IsEnd(e) && peer[e] in peer && peer[peer[e]] == e)
      && (forall e | e in peer :: bridges[e.b].id != bridges[peer[e].b].id)
      && (forall i | 0 <= i < |bridges| :: "" !in bridges[i].ports)
      && (forall e: End | IsEnd(e) :: 0 < Port(e).cost)
    }

    ghost predicate DistinctIDs() {
      forall i: nat, j: nat | i < j < |bridges| :: bridges[i].id != bridges[j].id
    }

    /** Every bridge has recomputed and every port holds just what its link's designated end sends. */
    ghost predicate Settled() {
      && WellFormed()
      && (forall i | 0 <= i < |bridges| :: bridges[i].Recomputed())
      && (forall e | e in peer :: Port(e).info ==
            if Port(peer[e]).role == DesignatedRole then Some(bridges[peer[e].b].Advert(peer[e].p)) else None)
      && (forall e: End | IsEnd(e) && e !in peer :: Port(e).info == None)
    }

    /** Both ends of e's link take part in forwarding. */
    predicate Active(e: End)
      requires e in peer && IsEnd(e) && IsEnd(peer[e])
    {
      Port(e).role != BlockedRole && Port(peer[e]).role != BlockedRole
    }

    function RootEnd(b: nat): End
      requires b < |bridges|
    {
      End(b, bridges[b].rootPort)
    }

    predicate IsRoot(b: nat)
      requires b < |bridges|
    {
      bridges[b].rootPort == ""
    }

    /** The bridge at the other end of b's root port. */
    function Parent(b: nat): nat
      requires b < |bridges| && RootEnd(b) in peer
    {
      peer[RootEnd(b)].b
    }

    /** w lists the ends a walk from bridge a to bridge z leaves by. */
    predicate Walk(a: nat, w: seq<End>, z: nat)
      decreases w
    {
      if w == [] then a == z
      else w[0] in peer && w[0].b == a && Walk(peer[w[0]].b, w[1..], z)
    }

    /** Total of the costs of the ports that receive the root's claim along w. */
    function WalkCost(w: seq<End>): nat
      requires forall e | e in w :: IsEnd(e)
    {
      if w == [] then 0 else Port(w[0]).cost + WalkCost(w[1..])
    }

    ghost predicate Joined(a: nat, z: nat) { exists w :: Walk(a, w, z) }

    ghost predicate Connected() {
      forall a: nat, z: nat | a < |bridges| && z < |bridges| :: Joined(a, z)
    }

    /** caps[b] bounds the path costs configured on bridge b, and together they stay below the wrap. */
    ghost predicate CostsFit(caps: seq<nat>) {
      && |caps| == |bridges|
      && (forall e: End | IsEnd(e) :: Port(e).cost <= caps[e.b])
      && Total(caps) < COST_MODULUS
    }
  }

  // ---------------------------------------------------------------- links

  /** What arrives at an end in a hello round. */
  function Arrives(net: Net, e: End): Option<Vector>
    requires e in net.peer && net.IsEnd(net.peer[e])
  {
    net.bridges[net.peer[e].b].Transmits(net.peer[e].p)
  }

  /** What an end holds once that has been heard. */
  function HeldAfter(net: Net, e: End): Option<Vector>
    requires e in net.peer && net.IsEnd(e) && net.IsEnd(net.peer[e])
  {
    var held, heard := net.Port(e).info, Arrives(net, e);
    if heard.Some? && Accepts(held, heard.value) then heard else held
  }

  /** A hello round leaves every port with what it holds, and refreshes all of it. */
  ghost predicate Quiet(net: Net) {
    && net.WellFormed()
    && (forall i | 0 <= i < |net.bridges| :: net.bridges[i].Recomputed())
    && (forall e | e in net.peer ::
          && HeldAfter(net, e) == net.Port(e).info
          && (net.Port(e).info.Some? ==> Arrives(net, e).Some? && Accepts(net.Port(e).info, Arrives(net, e).value)))
    && (forall e: End | net.IsEnd(e) && e !in net.peer :: net.Port(e).info == None)
  }

  lemma DesignatedTransmits(b: BridgeView, p: string)
    requires b.Recomputed() && p in b.ports
    ensures b.Transmits(p) == if b.ports[p].role == DesignatedRole then Some(b.Advert(p)) else None
  {}

  /** A network of recomputed bridges is settled exactly when a hello round changes and expires nothing. */
  lemma QuietIffSettled(net: Net)
    ensures Quiet(net) <==> net.Settled()
  {
    if net.WellFormed() && forall i | 0 <= i < |net.bridges| :: net.bridges[i].Recomputed() {
      forall e | e in net.peer
        ensures Arrives(net, e) == if net.Port(net.peer[e]).role == DesignatedRole
                                   then Some(net.bridges[net.peer[e].b].Advert(net.peer[e].p)) else None
      {
        DesignatedTransmits(net.bridges[net.peer[e].b], net.peer[e].p);
      }
      assert forall e | e in net.peer ::
          (HeldAfter(net, e) == net.Port(e).info
           && (net.Port(e).info.Some? ==> Arrives(net, e).Some? && Accepts(net.Port(e).info, Arrives(net, e).value)))
          <==> net.Port(e).info == Arrives(net, e);
    }
  }

  lemma ExactlyOneDesignated(net: Net, e: End)
    requires net.Settled() && e in net.peer
    ensures (net.Port(e).role == DesignatedRole) <==> (net.Port(net.peer[e]).role != DesignatedRole)
    ensures net.Port(e).role == DesignatedRole ==> net.Port(e).info.None?
    ensures net.Port(e).role == RootRole <==> e == net.RootEnd(e.b)
  {
    var f := net.peer[e];
    assert net.peer[f] == e;
    assert net.bridges[e.b].Recomputed() && net.bridges[f.b].Recomputed();
  }

  lemma RootPortElected(b: BridgeView)
    requires b.Recomputed() && "" !in b.ports
    ensures b.rootPort == "" ==> b.rootID == b.id && b.rootCost == 0
    ensures b.rootPort != "" ==> b.rootPort in b.ports && b.ports[b.rootPort].info.Some?
    ensures b.rootPort != "" ==>
      var port := b.ports[b.rootPort];
      && port.role == RootRole && b.rootID == port.info.value.rootID
      && b.rootCost == (port.info.value.cost + port.cost) % COST_MODULUS
  {}

  /** A root port leads to a designated port, over which the root cost was learned. */
  lemma RootEndLinked(net: Net, b: nat)
    requires net.Settled() && b < |net.bridges|
    ensures net.IsRoot(b) ==>
      net.RootEnd(b) !in net.peer && net.bridges[b].rootCost == 0 && net.bridges[b].rootID == net.bridges[b].id
    ensures !net.IsRoot(b) ==> net.RootEnd(b) in net.peer && net.Active(net.RootEnd(b))
    ensures !net.IsRoot(b) ==>
      var up := net.bridges[net.Parent(b)];
      && net.bridges[b].rootID == up.rootID
      && net.bridges[b].rootCost == (up.rootCost + net.Port(net.RootEnd(b)).cost) % COST_MODULUS
  {
    assert net.bridges[b].Recomputed();
    RootPortElected(net.bridges[b]);
    assert net.IsRoot(b) || net.IsEnd(net.RootEnd(b));
  }

  /** What a recomputed bridge concludes from a vector it does not beat. */
  lemma ConcludesFrom(b: BridgeView, p: string, v: Vector)
    requires b.Recomputed() && p in b.ports && p != "" && b.ports[p].info == Some(v) && v.bridgeID != b.id
    requires b.ports[p].role != DesignatedRole
    ensures b.rootID == v.rootID && b.rootCost <= v.cost + b.ports[p].cost
    ensures b.ports[p].role == BlockedRole ==> v.cost <= b.rootCost
  {
    assert b.Usable(p) && !b.Candidate(p).Better(b.Best());
    assert b.Candidate(p).cost <= v.cost + b.ports[p].cost;
  }

  /** The two bridges of a link agree on the root; d is its designated end. */
  lemma AcrossLink(net: Net, d: End)
    requires net.Settled() && d in net.peer && net.Port(d).role == DesignatedRole
    ensures var r := net.peer[d];
            && net.bridges[r.b].rootID == net.bridges[d.b].rootID
            && net.bridges[r.b].rootCost <= net.bridges[d.b].rootCost + net.Port(r).cost
            && (net.Port(r).role == BlockedRole ==> net.bridges[d.b].rootCost <= net.bridges[r.b].rootCost)
  {
    var r := net.peer[d];
    assert net.peer[r] == d && net.IsEnd(r);
    ExactlyOneDesignated(net, d);
    ConcludesFrom(net.bridges[r.b], r.p, net.bridges[d.b].Advert(d.p));
  }

  // ------------------------------------------------------------ root paths

  ghost function Ups(net: Net): seq<Up> {
    seq(|net.bridges|, b requires 0 <= b < |net.bridges| =>
      var e := net.RootEnd(b);
      if e in net.peer && net.IsEnd(e) then Via(net.peer[e].b, net.Port(e).cost) else Top)
  }

  ghost function Costs(net: Net): seq<nat> {
    seq(|net.bridges|, b requires 0 <= b < |net.bridges| => net.bridges[b].rootCost)
  }

  lemma WayUp(net: Net, caps: seq<nat>, b: nat)
    requires net.Settled() && net.CostsFit(caps) && b < |net.bridges|
    ensures Step(Ups(net), Costs(net), caps, b)
  {
    RootEndLinked(net, b);
  }

  /** A bridge that is not the root is farther from it than the bridge its root port leads to. */
  lemma RootPortExact(net: Net, caps: seq<nat>, b: nat)
    requires net.Settled() && net.CostsFit(caps) && b < |net.bridges| && !net.IsRoot(b)
    ensures net.RootEnd(b) in net.peer && net.Parent(b) < |net.bridges|
    ensures net.bridges[b].rootCost == net.bridges[net.Parent(b)].rootCost + net.Port(net.RootEnd(b)).cost
  {
    forall i: nat | i < |net.bridges|
      ensures Step(Ups(net), Costs(net), caps, i)
    {
      WayUp(net, caps, i);
    }
    StepsConsistent(Ups(net), Costs(net), caps);
    RootEndLinked(net, b);
    NoWrap(Ups(net), Costs(net), caps, b);
  }

  /** Each link bounds how much farther one of its bridges is than the other. */
  lemma LinkBound(net: Net, caps: seq<nat>, e: End)
    requires net.Settled() && net.CostsFit(caps) && e in net.peer
    ensures net.bridges[e.b].rootCost <= net.bridges[net.peer[e].b].rootCost + net.Port(e).cost
  {
    var q := net.peer[e];
    ExactlyOneDesignated(net, e);
    if net.Port(q).role == DesignatedRole {
      AcrossLink(net, q);
    } else {
      AcrossLink(net, e);
      if net.Port(q).role == RootRole {
        ExactlyOneDesignated(net, q);
        RootPortExact(net, caps, q.b);
      }
    }
  }

  /** Following root ports reaches a bridge that is its own root, over active links, at cost rootCost. */
  lemma {:induction false} RootPath(net: Net, caps: seq<nat>, b: nat) returns (w: seq<End>, r: nat)
    requires net.Settled() && net.CostsFit(caps) && b < |net.bridges|
    ensures r < |net.bridges| && net.IsRoot(r) && net.Walk(b, w, r)
    ensures forall e | e in w :: e in net.peer && net.Active(e) && e == net.RootEnd(e.b)
    ensures net.WalkCost(w) == net.bridges[b].rootCost
    ensures net.bridges[b].rootID == net.bridges[r].id
    decreases net.bridges[b].rootCost
  {
    RootEndLinked(net, b);
    if net.IsRoot(b) {
      w, r := [], b;
    } else {
      RootPortExact(net, caps, b);
      var e := net.RootEnd(b);
      var rest;
      rest, r := RootPath(net, caps, net.Parent(b));
      w := [e] + rest;
      assert w[1..] == rest;
    }
  }

  lemma {:induction false} SameRootAlong(net: Net, a: nat, w: seq<End>, z: nat)
    requires net.Settled() && a < |net.bridges| && net.Walk(a, w, z)
    ensures z < |net.bridges| && net.bridges[a].rootID == net.bridges[z].rootID
    decreases w
  {
    if w != [] {
      ExactlyOneDesignated(net, w[0]);
      AcrossLink(net, if net.Port(w[0]).role == DesignatedRole then w[0] else net.peer[w[0]]);
      SameRootAlong(net, net.peer[w[0]].b, w[1..], z);
    }
  }

  /** No path to a root is cheaper than the root cost. */
  lemma {:induction false} NoCheaperPath(net: Net, caps: seq<nat>, b: nat, w: seq<End>, r: nat)
    requires net.Settled() && net.CostsFit(caps) && b < |net.bridges| && r < |net.bridges|
    requires net.Walk(b, w, r) && net.IsRoot(r)
    ensures forall e | e in w :: net.IsEnd(e)
    ensures net.bridges[b].rootCost <= net.WalkCost(w)
    decreases w
  {
    RootEndLinked(net, r);
    if w != [] {
      NoCheaperPath(net, caps, net.peer[w[0]].b, w[1..], r);
      LinkBound(net, caps, w[0]);
    }
  }

  /** w goes from b to r over active links, each left by its bridge's root port, at cost rootCost. */
  ghost predicate RootWalk(net: Net, b: nat, w: seq<End>, r: nat) {
    && net.WellFormed() && b < |net.bridges| && net.Walk(b, w, r)
    && (forall e | e in w :: e in net.peer && net.Active(e) && e == net.RootEnd(e.b))
    && net.WalkCost(w) == net.bridges[b].rootCost
  }

  ghost predicate ReachesRoot(net: Net, b: nat, r: nat) { exists w :: RootWalk(net, b, w, r) }

  lemma AgreesOnRoot(net: Net, caps: seq<nat>, r: nat, b: nat)
    requires net.Settled() && net.CostsFit(caps) && r < |net.bridges| && b < |net.bridges|
    requires net.DistinctIDs() && net.IsRoot(r) && net.Joined(r, b)
    ensures net.bridges[r].id <= net.bridges[b].id && net.bridges[b].rootID == net.bridges[r].id
    ensures net.IsRoot(b) <==> b == r
    ensures ReachesRoot(net, b, r)
  {
    RootEndLinked(net, r);
    RootEndLinked(net, b);
    assert net.bridges[b].Recomputed();
    var v :| net.Walk(r, v, b);
    SameRootAlong(net, r, v, b);
    var w, q := RootPath(net, caps, b);
    assert q == r;
    assert RootWalk(net, b, w, r);
  }

  /**
   In a settled connected network there is one root, the bridge with the smallest
   ID; every bridge names it, reaches it over active links through root ports,
   and has as its root cost the least total over all paths.
   */
  lemma SpanningTree(net: Net, caps: seq<nat>) returns (r: nat)
    requires net.Settled() && net.DistinctIDs() && net.CostsFit(caps) && net.Connected() && net.bridges != []
    ensures r < |net.bridges|
    ensures forall b: nat | b < |net.bridges| ::
              && net.bridges[r].id <= net.bridges[b].id && net.bridges[b].rootID == net.bridges[r].id
              && (net.IsRoot(b) <==> b == r) && ReachesRoot(net, b, r)
    ensures forall b: nat, w | b < |net.bridges| && net.Walk(b, w, r) ::
              (forall e | e in w :: net.IsEnd(e)) && net.bridges[b].rootCost <= net.WalkCost(w)
  {
    var w0;
    w0, r := RootPath(net, caps, 0);
    forall b: nat | b < |net.bridges|
      ensures net.bridges[r].id <= net.bridges[b].id && net.bridges[b].rootID == net.bridges[r].id
      ensures (net.IsRoot(b) <==> b == r) && ReachesRoot(net, b, r)
    {
      assert net.Joined(r, b);
      AgreesOnRoot(net, caps, r, b);
    }
    forall b: nat, w | b < |net.bridges| && net.Walk(b, w, r)
      ensures (forall e | e in w :: net.IsEnd(e)) && net.bridges[b].rootCost <= net.WalkCost(w)
    {
      NoCheaperPath(net, caps, b, w, r);
    }
  }

  // ------------------------------------------------------------ no loops

  /** The active links, with root ports as the way up and root costs as heights. */
  ghost function ActiveForest(net: Net): Forest {
    var links := map e | e in net.peer && net.IsEnd(e) && net.IsEnd(net.peer[e]) && net.Active(e) :: net.peer[e];
    Forest(links, seq(|net.bridges|, b requires 0 <= b < |net.bridges| => net.RootEnd(b)), Costs(net))
  }

  /** An active link is a root port on one side, and that side is farther from the root. */
  lemma Crossing(net: Net, caps: seq<nat>, e: End)
    requires net.Settled() && net.CostsFit(caps) && e in net.peer && net.Active(e)
    ensures var q := net.peer[e];
            && (net.Port(e).role == RootRole <==> net.Port(q).role != RootRole)
            && (net.Port(e).role == RootRole ==>
                  e == net.RootEnd(e.b) && net.bridges[q.b].rootCost < net.bridges[e.b].rootCost)
  {
    var q := net.peer[e];
    assert net.peer[q] == e && net.IsEnd(q);
    ExactlyOneDesignated(net, e);
    ExactlyOneDesignated(net, q);
    if net.Port(e).role == RootRole { RootPortExact(net, caps, e.b); }
  }

  ghost predicate RankedAt(f: Forest, e: End) {
    && e in f.link && f.link[e] in f.link && f.link[f.link[e]] == e
    && e.b < |f.top| == |f.height| && f.link[e].b < |f.height|
    && (f.Up(e) <==> !f.Up(f.link[e]))
    && (f.Up(e) ==> f.height[f.link[e].b] < f.height[e.b])
  }

  lemma ForestAt(net: Net, e: End)
    requires net.WellFormed() && e in net.peer && net.Active(e)
    ensures var f, q := ActiveForest(net), net.peer[e];
            && e in f.link && f.link[e] == q && q in f.link && f.link[q] == e
            && e.b < |f.top| && q.b < |f.top| && |f.height| == |f.top|
            && (f.Up(e) <==> e == net.RootEnd(e.b)) && (f.Up(q) <==> q == net.RootEnd(q.b))
            && f.height[e.b] == net.bridges[e.b].rootCost && f.height[q.b] == net.bridges[q.b].rootCost
  {
    LinkEnds(net, e);
    hide Net.WellFormed;
  }

  lemma ActiveLinkRanked(net: Net, caps: seq<nat>, e: End)
    requires net.Settled() && net.CostsFit(caps) && e in net.peer && net.Active(e)
    ensures RankedAt(ActiveForest(net), e)
  {
    LinkEnds(net, e);
    ForestAt(net, e);
    hide Net.Settled, Net.CostsFit, ActiveForest;
    Crossing(net, caps, e);
    Crossing(net, caps, net.peer[e]);
    ExactlyOneDesignated(net, e);
    ExactlyOneDesignated(net, net.peer[e]);
  }

  lemma LinkEnds(net: Net, e: End)
    requires net.WellFormed() && e in net.peer
    ensures net.IsEnd(e) && net.peer[e] in net.peer && net.IsEnd(net.peer[e]) && net.peer[net.peer[e]] == e
  {}

  lemma ActiveLinksRanked(net: Net, caps: seq<nat>)
    requires net.Settled() && net.CostsFit(caps)
    ensures Ranked(ActiveForest(net))
  {
    forall e | e in ActiveForest(net).link
      ensures RankedAt(ActiveForest(net), e)
    {
      ActiveLinkRanked(net, caps, e);
    }
    RankedEverywhere(ActiveForest(net));
  }

  lemma RankedEverywhere(f: Forest)
    requires forall e | e in f.link :: RankedAt(f, e)
    ensures Ranked(f)
  {}

  /** The active links contain no loop: a trail over them visits each bridge at most once. */
  lemma NoActiveLoop(net: Net, caps: seq<nat>, w: seq<End>)
    requires net.Settled() && net.CostsFit(caps) && w != [] && Trail(ActiveForest(net).link, w)
    ensures forall i: nat, j: nat | i < j <= |w| ::
              Visited(ActiveForest(net).link, w, i) != Visited(ActiveForest(net).link, w, j)
    ensures |w| < |net.bridges|
  {
    ActiveLinksRanked(net, caps);
    TrailFacts(ActiveForest(net), w);
  }

  // ------------------------------------------------- why the costs must fit

  const HALF: nat := COST_MODULUS / 2

  function WrapLeft(): BridgeView {
    BridgeView(10, map["p" := PortView(HALF, 1, Some(Vector(1, 0, 20, 1)), RootRole),
                       "qq" := PortView(HALF, 2, None, DesignatedRole)], 1, HALF, "p")
  }

  function WrapRight(): BridgeView {
    BridgeView(20, map["p" := PortView(HALF, 1, None, DesignatedRole),
                       "qq" := PortView(HALF, 2, Some(Vector(1, HALF, 10, 2)), RootRole)], 1, 0, "qq")
  }

  /** Two bridges, two links, all path costs 2^31: each bridge learned a vanished root from the other. */
  function WrapNet(): Net {
    Net([WrapLeft(), WrapRight()], map e: End | e in {End(0, "p"), End(0, "qq"), End(1, "p"), End(1, "qq")} ::
          End(1 - e.b, e.p))
  }

  lemma WrapBridges()
    ensures WrapLeft().Recomputed() && WrapRight().Recomputed()
  {
    assert |"p"| == 1 && |"qq"| == 2;
  }

  lemma WrapEnd(e: End)
    requires WrapNet().IsEnd(e)
    ensures e in WrapNet().peer && WrapNet().peer[e] == End(1 - e.b, e.p) && WrapNet().Port(e).cost == HALF
    ensures (WrapNet().Port(e).role, WrapNet().Port(e).info) ==
            if e == End(0, "p") then (RootRole, Some(Vector(1, 0, 20, 1)))
            else if e == End(1, "qq") then (RootRole, Some(Vector(1, HALF, 10, 2))) else (DesignatedRole, None)
  {
    assert |"p"| == 1 && |"qq"| == 2;
  }

  lemma WrapPeer(e: End)
    requires e in WrapNet().peer
    ensures var net := WrapNet();
            && net.IsEnd(e) && net.peer[e] in net.peer && net.peer[net.peer[e]] == e
            && net.peer[e].b < 2 && net.bridges[e.b].id != net.bridges[net.peer[e].b].id
  {}

  lemma WrapNames()
    ensures "" !in WrapLeft().ports && "" !in WrapRight().ports
  {
    assert |"p"| == 1 && |"qq"| == 2 && |""| == 0;
  }

  lemma WrapNetWellFormed()
    ensures WrapNet().WellFormed() && WrapNet().DistinctIDs()
  {
    hide WrapLeft, WrapRight, Net.IsEnd, Net.Port;
    var net := WrapNet();
    WrapNames();
    assert net.DistinctIDs() by { assert WrapLeft().id == 10 && WrapRight().id == 20 by { WrapIDs(); } }
    forall e | e in net.peer
      ensures net.IsEnd(e) && net.peer[e] in net.peer && net.peer[net.peer[e]] == e
      ensures net.peer[e].b < 2 && net.bridges[e.b].id != net.bridges[net.peer[e].b].id
    {
      WrapPeer(e);
    }
    forall e: End | net.IsEnd(e)
      ensures 0 < net.Port(e).cost
    {
      WrapEnd(e);
    }
  }

  lemma WrapIDs()
    ensures WrapLeft().id == 10 && WrapRight().id == 20
  {}

  lemma WrapHolds(e: End)
    requires WrapNet().IsEnd(e)
    ensures var net := WrapNet();
            && e in net.peer && net.IsEnd(net.peer[e])
            && net.Port(e).info == if net.Port(net.peer[e]).role == DesignatedRole
                                   then Some(net.bridges[net.peer[e].b].Advert(net.peer[e].p)) else None
  {
    assert |"p"| == 1 && |"qq"| == 2;
    WrapEnd(e);
    WrapEnd(WrapNet().peer[e]);
  }

  lemma WrapNetSettled()
    ensures WrapNet().Settled() && WrapNet().DistinctIDs()
  {
    hide WrapLeft, WrapRight, Net.Port, Net.WellFormed, Net.DistinctIDs, BridgeView.Recomputed, BridgeView.Advert;
    var net := WrapNet();
    WrapNetWellFormed();
    WrapBridges();
    forall e: End | net.IsEnd(e)
      ensures e in net.peer && net.IsEnd(net.peer[e])
      ensures net.Port(e).info == if net.Port(net.peer[e]).role == DesignatedRole
                                  then Some(net.bridges[net.peer[e].b].Advert(net.peer[e].p)) else None
    {
      WrapHolds(e);
    }
    forall e | e in net.peer
      ensures net.IsEnd(e)
    {
      WrapPeer(e);
    }
  }

  /** With costs that wrap, a settled network can keep a loop around a root that does not exist. */
  lemma WrappedCostsLoop()
    ensures WrapNet().Settled() && WrapNet().DistinctIDs()
    ensures var w := [End(0, "p"), End(1, "qq")];
            && Trail(ActiveForest(WrapNet()).link, w)
            && Visited(ActiveForest(WrapNet()).link, w, 0) == Visited(ActiveForest(WrapNet()).link, w, 2)
    ensures WrapLeft().rootID == WrapRight().rootID < WrapLeft().id < WrapRight().id
  {
    WrapTrail();
    WrapNetSettled();
  }

  lemma WrapTrail()
    ensures var w := [End(0, "p"), End(1, "qq")];
            && Trail(ActiveForest(WrapNet()).link, w)
            && Visited(ActiveForest(WrapNet()).link, w, 0) == Visited(ActiveForest(WrapNet()).link, w, 2)
  {
    assert |"p"| == 1 && |"qq"| == 2;
    WrapEnd(End(0, "p"));
    WrapEnd(End(1, "p"));
    WrapEnd(End(0, "qq"));
    WrapEnd(End(1, "qq"));
  }
}
