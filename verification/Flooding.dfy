/**
 Data frames in a settled network whose inter-bridge links all take part in the
 spanning tree: however the switches forward or flood a frame, it enters every
 bridge at most once. That needs trees that are up to date, which two resyncs make them.
 */
module Flooding {
  import opened SwitchPorts
  import opened Frames
  import opened SwitchModel
  import opened StpVectors
  import opened StpNetwork
  import opened StpSteps
  import opened StpRuns
  import opened Forests

  // ------------------------------------------------ roles and the data plane

  /** The registered port of every tree port is gated as the role says. */
  ghost predicate GatedByRole(n: Node) {
    forall p | p in n.View().ports ::
      && p in n.sw.ports && n.sw.ports[p] in n.sw.entries
      && (n.View().ports[p].role == BlockedRole <==> n.sw.entries[n.sw.ports[p]].stpState == Blocking)
  }

  /** Every tree port is registered, and a blocked one is still the port registered under its ID. */
  predicate Current(n: Node) {
    forall p | p in n.ports ::
      p in n.sw.ports && (n.ports[p].role == BlockedRole ==> n.ports[p].entry == n.sw.ports[p])
  }

  /**
   The tree rules its ports in the data plane exactly when no blocked port's ID is out of date.
   A registered port outside the tree forwards.
   */
  lemma GatedByRoleIff(n: Node)
    requires NodeInv(n)
    ensures GatedByRole(n) <==> Current(n)
    ensures forall p | p in n.sw.ports && p !in n.ports ::
              n.sw.ports[p] in n.sw.entries && n.sw.entries[n.sw.ports[p]].stpState == Forwarding
  {
    hide RegistryInv;
    forall p | p in n.sw.ports && p !in n.ports
      ensures n.sw.ports[p] in n.sw.entries && n.sw.entries[n.sw.ports[p]].stpState == Forwarding
    {
      RegisteredEntry(n.sw, p);
      assert !Enrolled(n.ports, n.sw.entries, n.sw.ports[p]);
    }
    assert n.View().ports.Keys == n.ports.Keys;
    forall p | p in n.ports && p in n.sw.ports
      ensures n.sw.ports[p] in n.sw.entries
      ensures (n.ports[p].role == BlockedRole <==> n.sw.entries[n.sw.ports[p]].stpState == Blocking)
              <==> (n.ports[p].role == BlockedRole ==> n.ports[p].entry == n.sw.ports[p])
    {
      RegisteredEntry(n.sw, p);
      assert !Enrolled(n.ports, n.sw.entries, n.sw.ports[p]) || n.ports[p].entry == n.sw.ports[p];
    }
  }

  lemma RegisteredEntry(s: Switch, p: string)
    requires RegistryInv(s) && p in s.ports
    ensures s.ports[p] in s.entries && s.entries[s.ports[p]].id == p && !s.entries[s.ports[p]].gone
  {}

  lemma LiveRegistered(s: Switch, h: Handle)
    requires RegistryInv(s) && h in s.entries && !s.entries[h].gone && s.removing == {}
    ensures s.entries[h].id in s.ports && s.ports[s.entries[h].id] == h
  {}

  // ------------------------------------------------------- up-to-date trees

  /** Every registered port that takes part by its attributes is in the tree. */
  predicate Enlisted(n: Node) {
    forall id | id in n.sw.ports && Takes(n.sw.ports, n.sw.entries, id) ::
      id in n.ports && n.ports[id].entry == n.sw.ports[id]
  }

  /** What a resync does to membership, whatever follows it in the same event. */
  ghost predicate Resyncs(s: Node, t: Node) {
    && t.sw.ports == s.sw.ports && t.sw.removing == s.sw.removing && OnlyGates(s.sw.entries, t.sw.entries)
    && forall id ::
         && (id in t.ports <==> if id in s.ports then Stays(s.sw.ports, s.ports, s.sw.entries, id)
                                else Takes(s.sw.ports, s.sw.entries, id))
         && (id in t.ports ==> t.ports[id].entry == if id in s.ports then s.ports[id].entry else s.sw.ports[id])
  }

  /** Ticks and port changes of a bridge that is on resync. */
  lemma EventResyncs(s: Node, ev: Event, t: Node)
    requires NodeInv(s) && s.cfg.enabled && Follows(s, ev, t) && (ev.Tick? || ev.Change?)
    ensures Resyncs(s, t)
  {
    hide NodeInv, Follows, ResyncPorts, ResyncEntries, Stays, Takes, Tied, OnlyGates;
    BridgeTied(s, ev, t);
    SameSwitch(s, ev, t);
    forall id
      ensures id in t.ports <==> if id in s.ports then Stays(s.sw.ports, s.ports, s.sw.entries, id)
                                 else Takes(s.sw.ports, s.sw.entries, id)
      ensures id in t.ports && id in s.ports ==> t.ports[id].entry == s.ports[id].entry
      ensures id in t.ports && id !in s.ports ==> id in s.sw.ports && t.ports[id].entry == s.sw.ports[id]
    {
      ResyncedMembers(s, ev, t, id);
      TiedOf(s);
      ResyncMeaning(s.sw, s.ports, id);
      TakesRegistered(s.sw, id);
    }
  }

  lemma TakesRegistered(s: Switch, id: string)
    ensures Takes(s.ports, s.entries, id) ==> id in s.ports
  {}

  lemma SameSwitch(s: Node, ev: Event, t: Node)
    requires Follows(s, ev, t) && !ev.Plane?
    ensures t.sw == s.sw.(entries := t.sw.entries, table := t.sw.table)
  {
    hide Advanced, ClimbedTo, RolesSettled, Heard, ResyncPorts, ResyncEntries, DropEntries;
  }

  lemma ResyncedMembers(s: Node, ev: Event, t: Node, id: string)
    requires NodeInv(s) && s.cfg.enabled && Follows(s, ev, t) && (ev.Tick? || ev.Change?)
    ensures var r := ResyncPorts(s.sw.ports, s.ports, s.sw.entries);
            (id in t.ports <==> id in r) && (id in t.ports ==> t.ports[id].entry == r[id].entry)
  {
    hide RegistryInv, Linked, Gated, ResyncPorts, ResyncEntries, PassPorts, PassEntries, RolesSettled;
    var r := Resynced(s.sw.ports, s.Snap());
    ResyncedTied(s);
    if ev.Change? {
      SameMembers(s.cfg, r, t.Snap(), id);
    } else {
      var mid :| Ticked(s, ev.dt, mid, t);
      var u := s.Snap().(ports := AgedPorts(s.sw.ports, s.ports, s.sw.entries, s.cfg.maxAge, ev.dt),
                         entries := r.entries);
      AgedPrepared(s, ev.dt, u);
      AdvancedTied(s, ev.dt, mid);
      PassMembers(Age(s.cfg.maxAge, ev.dt), r.ports, r.entries, id);
      if mid != u { SameMembers(s.cfg, u, mid, id); }
      PassMembers(Climb(s.cfg.forwardDelay, ev.dt), mid.ports, mid.entries, id);
    }
  }

  lemma PassMembers(pass: Pass, ports: Ports, entries: Entries, id: string)
    requires Linked(ports, entries)
    ensures var ps := PassPorts(pass, ports, entries, {});
            (id in ps <==> id in ports) && (id in ps ==> ps[id].entry == ports[id].entry)
  {
    if id in ports { PassOne(pass, ports, entries, id); }
  }

  lemma SameMembers(cfg: StpConfig, u: Snapshot, t: Snapshot, id: string)
    requires Tied(u) && RolesSettled(cfg, u, t)
    ensures (id in t.ports <==> id in u.ports) && (id in t.ports ==> t.ports[id].entry == u.ports[id].entry)
  {
    SettledPorts(cfg, u, t);
    PassMembers(Give(t.claim), u.ports, u.entries, id);
  }

  lemma SameTakes(s: Node, t: Node, id: string)
    requires Resyncs(s, t)
    ensures Takes(t.sw.ports, t.sw.entries, id) == Takes(s.sw.ports, s.sw.entries, id)
  {}

  /** A resync with no removal open leaves in the tree only ports that are registered as they are. */
  lemma ResyncCurrent(s: Node, t: Node)
    requires NodeInv(s) && Resyncs(s, t) && s.sw.removing == {}
    ensures Current(t)
    ensures forall id | id in t.ports ::
              id in t.sw.ports && t.ports[id].entry == t.sw.ports[id] && t.ports[id].entry in t.sw.entries
              && !t.sw.entries[t.ports[id].entry].gone
  {
    forall id | id in t.ports
      ensures id in t.sw.ports && t.ports[id].entry == t.sw.ports[id]
      ensures t.ports[id].entry in t.sw.entries && !t.sw.entries[t.ports[id].entry].gone
    {
      hide RegistryInv, Gated;
      if id in s.ports { LiveRegistered(s.sw, s.ports[id].entry); }
      RegisteredEntry(s.sw, id);
    }
  }

  /** Such a resync brings in every participating port exactly if none of their IDs is held by an entry that is gone. */
  lemma EnlistedIff(s: Node, t: Node)
    requires NodeInv(s) && Resyncs(s, t) && s.sw.removing == {}
    ensures Enlisted(t) <==>
            forall id | id in s.ports && Takes(s.sw.ports, s.sw.entries, id) ::
              s.ports[id].entry in s.sw.entries && !s.sw.entries[s.ports[id].entry].gone
  {
    ResyncCurrent(s, t);
    hide RegistryInv, Gated;
    forall id | id in s.sw.ports && Takes(s.sw.ports, s.sw.entries, id)
      ensures Takes(t.sw.ports, t.sw.entries, id)
      ensures (id in t.ports && t.ports[id].entry == t.sw.ports[id])
              <==> (id in s.ports ==> s.ports[id].entry in s.sw.entries && !s.sw.entries[s.ports[id].entry].gone)
    {
      SameTakes(s, t, id);
    }
    forall id
      ensures Takes(t.sw.ports, t.sw.entries, id) == Takes(s.sw.ports, s.sw.entries, id)
    {
      SameTakes(s, t, id);
    }
  }

  predicate UpToDate(n: Node) { Current(n) && Enlisted(n) }

  /**
   Two resyncs with no removal open in between bring any tree up to date: its ports are then exactly
   the registered ports that have the spanning tree on and are not disabled.
   */
  lemma TwoResyncs(s: Node, t: Node, u: Node)
    requires NodeInv(s) && NodeInv(t) && Resyncs(s, t) && Resyncs(t, u) && s.sw.removing == {}
    ensures UpToDate(u)
    ensures forall id :: id in u.ports <==>
              && id in u.sw.ports && u.sw.ports[id] in u.sw.entries
              && u.sw.entries[u.sw.ports[id]].attrs.stp && !u.sw.entries[u.sw.ports[id]].attrs.disabled
  {
    ResyncCurrent(s, t);
    ResyncCurrent(t, u);
    EnlistedIff(t, u);
    hide NodeInv;
    forall id | id in u.ports
      ensures Takes(u.sw.ports, u.sw.entries, id)
    {
      SameTakes(t, u, id);
    }
  }

  /** After the first, a participating port whose ID was reused is outside the tree and forwards. */
  lemma ReusedLeftOut(s: Node, t: Node, id: string)
    requires NodeInv(s) && NodeInv(t) && Resyncs(s, t) && s.sw.removing == {}
    requires id in s.ports && Takes(s.sw.ports, s.sw.entries, id) && s.ports[id].entry in s.sw.entries
    requires s.sw.entries[s.ports[id].entry].gone
    ensures Current(t) && id !in t.ports && Takes(t.sw.ports, t.sw.entries, id)
    ensures t.sw.entries[t.sw.ports[id]].stpState == Forwarding
  {
    ResyncCurrent(s, t);
    SameTakes(s, t, id);
    hide RegistryInv;
    RegisteredEntry(t.sw, id);
    assert !Enrolled(t.ports, t.sw.entries, t.sw.ports[id]);
  }

  // ----------------------------------------------------------------- frames

  /** One transmission: the node got the frame on port `inPort` and sent a copy out of `out`. */
  datatype Hop = Hop(node: Node, inPort: string, frame: Frame, now: int, out: End)

  /** n is bridge b of the network, with a tree that rules its data plane. */
  ghost predicate Drives(net: Net, b: nat, n: Node) {
    b < |net.bridges| && NodeInv(n) && n.View() == net.bridges[b] && Current(n)
  }

  /** The switch really sends that copy. */
  ghost predicate Sends(net: Net, hop: Hop) {
    var sw := hop.node.sw;
    && Drives(net, hop.out.b, hop.node)
    && hop.inPort in sw.ports && hop.out in net.peer && hop.out.p in sw.ports
    && sw.ports[hop.inPort] in sw.entries
    && sw.ports[hop.out.p] in Copies(sw, sw.ports[hop.inPort], hop.frame, hop.now)
  }

  /** Each hop forwards what the previous one sent over a link; the last copy is not stopped at a blocked port. */
  ghost predicate Journey(net: Net, hops: seq<Hop>) {
    && net.WellFormed() && hops != []
    && (forall i | 0 <= i < |hops| :: Sends(net, hops[i]))
    && (forall i | 0 <= i < |hops| - 1 ::
          net.peer[hops[i].out] == End(hops[i + 1].out.b, hops[i + 1].inPort))
    && net.Port(net.peer[hops[|hops| - 1].out]).role != BlockedRole
  }

  function Outs(hops: seq<Hop>): seq<End> { seq(|hops|, i requires 0 <= i < |hops| => hops[i].out) }

  /** A copy passes open gates on both sides and leaves by another port. */
  lemma SendsThroughGates(net: Net, hop: Hop)
    requires net.WellFormed() && Sends(net, hop)
    ensures hop.out in net.peer && hop.inPort != hop.out.p
    ensures net.Port(hop.out).role != BlockedRole
    ensures hop.inPort in net.bridges[hop.out.b].ports ==> net.bridges[hop.out.b].ports[hop.inPort].role != BlockedRole
  {
    var sw := hop.node.sw;
    var h := sw.ports[hop.inPort];
    GatedByRoleIff(hop.node);
    CopiesProper(sw, h, hop.frame, hop.now);
    assert ProperCopy(sw, h, hop.frame, hop.now, sw.ports[hop.out.p]);
  }

  lemma HopIsActive(net: Net, hops: seq<Hop>, i: nat)
    requires Journey(net, hops) && i < |hops|
    ensures hops[i].out in net.peer && hops[i].out in ActiveForest(net).link
    ensures ActiveForest(net).link[hops[i].out] == net.peer[hops[i].out]
    ensures i < |hops| - 1 ==> hops[i + 1].out.b == net.peer[hops[i].out].b && hops[i + 1].out != net.peer[hops[i].out]
  {
    hide Sends, Drives, Inv, Copies;
    assert Sends(net, hops[i]);
    SendsThroughGates(net, hops[i]);
    if i < |hops| - 1 {
      assert Sends(net, hops[i + 1]);
      SendsThroughGates(net, hops[i + 1]);
    }
    assert net.peer[hops[i].out] in net.peer && net.IsEnd(net.peer[hops[i].out]);
  }

  lemma JourneyIsTrail(net: Net, hops: seq<Hop>)
    requires Journey(net, hops)
    ensures hops != [] && Trail(ActiveForest(net).link, Outs(hops))
    ensures forall i | 0 <= i < |hops| ::
              && hops[i].out in net.peer && hops[i].out in ActiveForest(net).link
              && ActiveForest(net).link[hops[i].out] == net.peer[hops[i].out]
  {
    hide ActiveForest, Net.WellFormed, Sends;
    forall i: nat | i < |hops|
      ensures hops[i].out in net.peer && hops[i].out in ActiveForest(net).link
      ensures ActiveForest(net).link[hops[i].out] == net.peer[hops[i].out]
      ensures i < |hops| - 1 ==> hops[i + 1].out.b == net.peer[hops[i].out].b
                                 && hops[i + 1].out != net.peer[hops[i].out]
    {
      HopIsActive(net, hops, i);
    }
  }

  /** A journey visits each bridge at most once, so it has fewer hops than there are bridges. */
  lemma JourneyNeverReturns(net: Net, caps: seq<nat>, hops: seq<Hop>)
    requires net.Settled() && net.CostsFit(caps) && Journey(net, hops)
    ensures forall i | 0 <= i < |hops| :: hops[i].out in net.peer
    ensures forall i: nat, j: nat | i < j < |hops| :: hops[i].out.b != hops[j].out.b
    ensures forall i: nat | i < |hops| :: hops[i].out.b != net.peer[hops[|hops| - 1].out].b
    ensures |hops| < |net.bridges|
  {
    hide Net.Settled, Net.CostsFit, Sends, ActiveForest, Journey;
    JourneyIsTrail(net, hops);
    NoActiveLoop(net, caps, Outs(hops));
    var w, link := Outs(hops), ActiveForest(net).link;
    forall i: nat, j: nat | i < j < |hops|
      ensures hops[i].out.b != hops[j].out.b
    {
      assert Visited(link, w, i) != Visited(link, w, j);
    }
    forall i: nat | i < |hops|
      ensures hops[i].out.b != net.peer[hops[|hops| - 1].out].b
    {
      assert Visited(link, w, i) != Visited(link, w, |w|);
    }
  }

  /** Two journeys from one bridge that reach one bridge went the same way. */
  lemma JourneyUnique(net: Net, caps: seq<nat>, hops: seq<Hop>, more: seq<Hop>)
    requires net.Settled() && net.CostsFit(caps) && Journey(net, hops) && Journey(net, more)
    requires hops != [] && more != [] && hops[0].out.b == more[0].out.b
    requires hops[|hops| - 1].out in net.peer && more[|more| - 1].out in net.peer
    requires net.peer[hops[|hops| - 1].out].b == net.peer[more[|more| - 1].out].b
    ensures Outs(hops) == Outs(more)
  {
    hide Net.Settled, Net.CostsFit, Sends, ActiveForest, Journey, Ranked, Trail;
    JourneyIsTrail(net, hops);
    JourneyIsTrail(net, more);
    ActiveLinksRanked(net, caps);
    TrailUnique(ActiveForest(net), Outs(hops), Outs(more));
  }

  // --------------------------------------------------- bridges and their wires

  /** Bridges with their switches, and the wires between their ports. */
  datatype Plant = Plant(nodes: seq<Node>, wire: map<End, End>) {
    predicate InTree(e: End) { e.b < |nodes| && e.p in nodes[e.b].View().ports }

    /** The network the spanning tree sees: the wires with both ends in the trees. */
    function Seen(): Net {
      Net(seq(|nodes|, b requires 0 <= b < |nodes| => nodes[b].View()),
          map e | e in wire && InTree(e) && InTree(wire[e]) :: wire[e])
    }

    /** Wires join registered ports that take part by their attributes. */
    predicate Wired() {
      forall e | e in wire ::
        && wire[e] in wire && wire[wire[e]] == e && e.b < |nodes|
        && Takes(nodes[e.b].sw.ports, nodes[e.b].sw.entries, e.p)
    }

    /** Every bridge is valid and its tree up to date. */
    ghost predicate Ready() { Wired() && forall n <- nodes :: NodeInv(n) && UpToDate(n) }
  }

  /** When the trees are up to date they see every wire. */
  lemma AllSeen(plant: Plant)
    requires plant.Ready()
    ensures plant.Seen().peer == plant.wire
  {
    hide NodeInv;
    forall e | e in plant.wire
      ensures plant.InTree(e)
    {
      var n := plant.nodes[e.b];
      assert n in plant.nodes;
      TiedOf(n);
      EnrolledEntry(n.ports, n.sw.entries, e.p);
    }
  }

  /** n is bridge b of the plant, now or at another time at which its tree looked the same. */
  ghost predicate IsBridge(plant: Plant, b: nat, n: Node) {
    b < |plant.nodes| && NodeInv(n) && UpToDate(n) && n.View() == plant.nodes[b].View()
  }

  /** That bridge sends this copy over a wire. */
  ghost predicate Forwards(plant: Plant, hop: Hop) {
    var sw := hop.node.sw;
    && IsBridge(plant, hop.out.b, hop.node) && hop.out in plant.wire
    && hop.inPort in sw.ports && hop.out.p in sw.ports && sw.ports[hop.inPort] in sw.entries
    && sw.ports[hop.out.p] in Copies(sw, sw.ports[hop.inPort], hop.frame, hop.now)
  }

  predicate Stopped(plant: Plant, e: End) {
    plant.InTree(e) && plant.nodes[e.b].View().ports[e.p].role == BlockedRole
  }

  /**
   A copy of a data frame from switch to switch: each hop forwards what the previous one sent
   over a wire, and the last copy is not stopped at a blocked port.
   */
  ghost predicate Travels(plant: Plant, hops: seq<Hop>) {
    && hops != []
    && (forall i | 0 <= i < |hops| :: hops[i].out in plant.wire && Forwards(plant, hops[i]))
    && (forall i | 0 <= i < |hops| - 1 :: plant.wire[hops[i].out] == End(hops[i + 1].out.b, hops[i + 1].inPort))
    && !Stopped(plant, plant.wire[hops[|hops| - 1].out])
  }

  lemma ForwardsSends(plant: Plant, hop: Hop)
    requires plant.Seen().peer == plant.wire && Forwards(plant, hop)
    ensures Sends(plant.Seen(), hop)
  {
    hide NodeInv, Copies, Node.View;
  }

  lemma SeenPort(plant: Plant, e: End)
    requires plant.Seen().WellFormed() && e in plant.Seen().peer
    ensures var net := plant.Seen();
            net.IsEnd(net.peer[e]) && (net.Port(net.peer[e]).role == BlockedRole <==> Stopped(plant, net.peer[e]))
  {
    hide Node.View;
  }

  lemma TravelsIsJourney(plant: Plant, hops: seq<Hop>)
    requires plant.Ready() && plant.Seen().WellFormed() && Travels(plant, hops)
    ensures Journey(plant.Seen(), hops) && plant.Seen().peer == plant.wire
  {
    hide Plant.Ready, Plant.Seen, Forwards, Sends, Stopped, Net.WellFormed;
    AllSeen(plant);
    forall i | 0 <= i < |hops|
      ensures Sends(plant.Seen(), hops[i])
    {
      ForwardsSends(plant, hops[i]);
    }
    SeenPort(plant, hops[|hops| - 1].out);
  }

  /**
   In a settled plant whose trees are up to date, a copy of a data frame visits each bridge at
   most once, so it makes fewer hops than there are bridges.
   */
  lemma FrameNeverReturns(plant: Plant, caps: seq<nat>, hops: seq<Hop>)
    requires plant.Ready() && plant.Seen().Settled() && plant.Seen().CostsFit(caps) && Travels(plant, hops)
    ensures forall i | 0 <= i < |hops| :: hops[i].out in plant.wire
    ensures forall i: nat, j: nat | i < j < |hops| :: hops[i].out.b != hops[j].out.b
    ensures forall i: nat | i < |hops| :: hops[i].out.b != plant.wire[hops[|hops| - 1].out].b
    ensures |hops| < |plant.nodes|
  {
    assert plant.Seen().WellFormed() && |plant.Seen().bridges| == |plant.nodes|;
    hide Net.Settled, Net.CostsFit, Plant.Ready, Plant.Seen, Travels, Journey;
    TravelsIsJourney(plant, hops);
    JourneyNeverReturns(plant.Seen(), caps, hops);
  }

  /**
   However a flood branches, all copies that reach a bridge went the same way; and as no switch
   sends a receiver two copies, a flood enters every bridge at most once.
   */
  lemma OneCopyEach(plant: Plant, caps: seq<nat>, hops: seq<Hop>, more: seq<Hop>)
    requires plant.Ready() && plant.Seen().Settled() && plant.Seen().CostsFit(caps)
    requires Travels(plant, hops) && Travels(plant, more) && hops[0].out.b == more[0].out.b
    requires plant.wire[hops[|hops| - 1].out].b == plant.wire[more[|more| - 1].out].b
    ensures Outs(hops) == Outs(more)
  {
    assert plant.Seen().WellFormed() && hops != [] && more != [];
    assert hops[|hops| - 1].out in plant.wire && more[|more| - 1].out in plant.wire;
    hide Net.Settled, Net.CostsFit, Plant.Ready, Plant.Seen, Travels, Journey;
    TravelsIsJourney(plant, hops);
    TravelsIsJourney(plant, more);
    JourneyUnique(plant.Seen(), caps, hops, more);
  }
}
