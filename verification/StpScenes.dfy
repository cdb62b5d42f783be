/** Runs of a bridge from its start that show what the general results allow. */
module StpScenes {
  import opened Wrappers
  import opened SwitchPorts
  import opened Frames
  import opened SwitchModel
  import opened StpVectors
  import opened StpElections
  import opened StpSteps
  import opened StpRuns
  import opened Bpdu
  import opened Flooding

  // ------------------------------------------------------ events that happen

  /** Roles can always be settled. */
  lemma Settles(cfg: StpConfig, s: Snapshot, bridgeID: nat) returns (t: Snapshot)
    requires Tied(s)
    ensures RolesSettled(cfg, s, t) && t.claim.bridgeID == bridgeID
  {
    hide PassPorts, PassEntries, Movers;
    var v := ViewOf(RootClaim(bridgeID, 0, 0, ""), s.ports, s.entries);
    assert "" !in v.ports;
    var order := Listing(v.ports.Keys);
    RecomputedInIs(v, order);
    var w := RecomputedIn(v, order);
    var c := RootClaim(bridgeID, w.rootID, w.rootCost, w.rootPort);
    RolesAside(w, ViewOf(c, s.ports, s.entries));
    GivenRecomputed(c, s.ports, s.entries);
    var given := s.(claim := c, ports := PassPorts(Give(c), s.ports, s.entries, {}),
                    entries := PassEntries(Give(c), s.ports, s.entries, {}));
    t := if Movers(c, s.ports, s.entries) == {} then given else Signalled(cfg, given);
  }

  lemma ChangeHappens(s: Node) returns (t: Node)
    requires NodeInv(s) && s.cfg.enabled
    ensures Follows(s, Change, t)
  {
    hide RolesSettled, ResyncPorts, ResyncEntries, RegistryInv, Linked, Gated;
    ResyncedTied(s);
    var snap := Settles(s.cfg, Resynced(s.sw.ports, s.Snap()), s.BridgeID());
    t := s.With(snap);
    assert t.Snap() == snap;
  }

  lemma ConfigureHappens(s: Node, want: StpConfig) returns (t: Node)
    requires NodeInv(s) && want.enabled
    ensures Follows(s, Configure(want), t)
  {
    hide RolesSettled, ResyncPorts, ResyncEntries, RegistryInv, Linked, Gated;
    ResyncedTied(s);
    var u := s.(cfg := WithDefaults(want));
    var snap := Settles(u.cfg, Resynced(s.sw.ports, s.Snap()), u.BridgeID());
    t := u.With(snap);
    assert t.Snap() == snap;
  }

  lemma ReceiveHappens(s: Node, id: string, frame: Frame) returns (t: Node)
    requires NodeInv(s) && s.cfg.enabled && id in s.ports && s.ports[id].info == None && IsBPDU(frame)
    requires Decode(frame).Some? && Decode(frame).value.ConfigMessage? && Decode(frame).value.flags == 0
    ensures Follows(s, Receive(id, frame), t) && t.View().Recomputed()
  {
    hide RegistryInv, Linked, Gated, PassPorts, PassEntries, Movers, ViewOf, DynamicCleared, FromBE;
    var m := Decode(frame).value;
    var stored := s.Snap().(ports := Stored(s.ports, id, m.vector, FromWire(m.age)));
    StoredPrepared(s.Snap(), id, m.vector, FromWire(m.age));
    var snap := Settles(s.cfg, stored, s.BridgeID());
    t := s.With(snap);
    assert t.Snap() == snap;
    assert snap == snap.(fdb := snap.fdb, tcnPending := snap.tcnPending);
    assert Heard(s.cfg, id, m.flags, m.vector, m.age, s.Snap(), t.Snap());
  }

  lemma RunExtends(events: seq<Event>, states: seq<Node>, ev: Event, t: Node)
    requires StpRuns.Run(events, states) && Follows(states[|events|], ev, t)
    ensures StpRuns.Run(events + [ev], states + [t]) && NodeInv(t)
  {
    hide Follows, NodeInv;
    RunGated(events, states, |events|);
    EventInv(states[|events|], ev, t);
  }

  /** The switch takes a step on its own. */
  lemma PlaneHappens(s: Node, step: Step) returns (t: Node)
    requires Enabled(s.sw, step) && !step.SetGate?
    ensures Follows(s, Plane(step), t) && t == s.(sw := Next(s.sw, step))
  {
    t := s.(sw := Next(s.sw, step));
  }

  const ON := StpConfig(true, 0, 0, 0, 0)

  /** A port on VLAN 1 that takes part in the tree. */
  function Attrs(): PortAttrs { PortAttrs(None, false, 1, false, false, 0, true, 0, 0) }

  /** Port p is registered under handle h, live, with the given attributes. */
  predicate Has(n: Node, p: string, h: Handle, attrs: PortAttrs) {
    && p in n.sw.ports && n.sw.ports[p] == h && h in n.sw.entries
    && n.sw.entries[h].id == p && n.sw.entries[h].attrs == attrs && !n.sw.entries[h].gone
  }

  // ---------------------------------------------------------------- starting

  lemma SwitchedOn(mac: MAC) returns (events: seq<Event>, states: seq<Node>)
    ensures StpRuns.Run(events, states) && |events| == 1 && NodeInv(states[1])
    ensures var n := states[1];
            && n.mac == mac && n.cfg == WithDefaults(ON) && n.ports == map[]
            && n.sw.ports == map[] && n.sw.entries == map[] && n.sw.removing == {} && n.sw.next == 0
  {
    hide NodeInv, RolesSettled, ResyncPorts, ResyncEntries, DropEntries, Linked, Gated, OnlyGates;
    var b := Boot(7, 300, mac);
    BootInv(b);
    var t := ConfigureHappens(b, ON);
    events, states := [Configure(ON)], [b, t];
    EventInv(b, Configure(ON), t);
    BridgeTied(b, Configure(ON), t);
    StillEmpty(b, t);
  }

  lemma StillEmpty(s: Node, t: Node)
    requires NodeInv(s) && Configured(s, ON, t) && s.sw.ports == map[] && s.sw.entries == map[] && s.ports == map[]
    requires OnlyGates(s.sw.entries, t.sw.entries)
    ensures t.ports == map[] && t.sw == s.sw.(table := t.sw.table) && t.cfg == WithDefaults(ON) && t.mac == s.mac
  {
    var u := Resynced(s.sw.ports, s.Snap());
    SettledPorts(t.cfg, u, t.Snap());
    assert u.ports == map[];
    assert t.sw.entries == map[];
  }

  /** Registering a port adds it to whatever is there. */
  lemma AddHappens(events: seq<Event>, states: seq<Node>, p: string) returns (events': seq<Event>, states': seq<Node>)
    requires StpRuns.Run(events, states) && p != "" && p !in states[|events|].sw.ports
    ensures |states| == |events| + 1 && |events'| == |events| + 1 && |states'| == |states| + 1
    ensures StpRuns.Run(events', states') && NodeInv(states'[|events'|]) && states' == states + [states'[|events'|]]
    ensures var s, t := states[|events|], states'[|events'|];
            && t == s.(sw := t.sw) && t.sw.ports == s.sw.ports[p := s.sw.next] && t.sw.next == s.sw.next + 1
            && t.sw.removing == s.sw.removing && Has(t, p, s.sw.next, Attrs())
            && t.sw.entries == s.sw.entries[s.sw.next := t.sw.entries[s.sw.next]]
            && t.sw.entries[s.sw.next].stpState == Forwarding
  {
    var t := PlaneHappens(states[|events|], AddPort(p, Attrs()));
    RunExtends(events, states, Plane(AddPort(p, Attrs())), t);
    events', states' := events + [Plane(AddPort(p, Attrs()))], states + [t];
  }

  // ---------------------------------------------------------------- reused IDs

  /** A new port enrolled by a tick: in the tree, blocked, with nothing heard. */
  lemma BlockedPort() returns (events: seq<Event>, states: seq<Node>)
    ensures StpRuns.Run(events, states) && |events| == 3 && NodeInv(states[3])
    ensures var n := states[3];
            && n.cfg == WithDefaults(ON) && Has(n, "a", 0, Attrs())
            && n.sw.removing == {} && n.sw.next == 1 && n.sw.ports == map["a" := 0] && n.sw.entries.Keys == {0}
            && n.ports.Keys == {"a"} && n.ports["a"].entry == 0 && n.ports["a"].role == BlockedRole
  {
    hide NodeInv, Follows, ResyncPorts, ResyncEntries;
    events, states := SwitchedOn([2, 0, 0, 0, 0, 1]);
    assert |"a"| == 1;
    events, states := AddHappens(events, states, "a");
    var s := states[2];
    NewPortQuiet(s, "a", 1);
    var t := QuietTick(s, 1);
    RunExtends(events, states, Tick(1), t);
    EventResyncs(s, Tick(1), t);
    QuietRole(s, 1, t, "a");
    SameSwitch(s, Tick(1), t);
    SameCfg(s, Tick(1), t);
    KeepsHas(s, t, "a", 0);
    events, states := events + [Tick(1)], states + [t];
    assert forall id :: id in t.ports <==> id == "a";
    assert t.ports.Keys == {"a"};
  }

  /** A tick that finds one new port enrols it blocked and lets nothing expire. */
  lemma NewPortQuiet(s: Node, p: string, dt: nat)
    requires NodeInv(s) && s.ports == map[] && s.sw.ports.Keys == {p} && Has(s, p, s.sw.ports[p], Attrs())
    ensures var ps := ResyncPorts(s.sw.ports, s.ports, s.sw.entries);
            p in ps && ps[p].role == BlockedRole && Expires(ps, s.cfg.maxAge, dt) == {}
  {
    var ps := ResyncPorts(s.sw.ports, s.ports, s.sw.entries);
    TiedOf(s);
    hide NodeInv, RegistryInv, Linked, ResyncPorts, ResyncEntries;
    ResyncMeaning(s.sw, s.ports, p);
    forall id | id in ps
      ensures ps[id].info == None
    {
      ResyncMeaning(s.sw, s.ports, id);
    }
  }

  lemma KeepsHas(s: Node, t: Node, p: string, h: Handle)
    requires Resyncs(s, t) && Has(s, p, h, Attrs())
    ensures Has(t, p, h, Attrs()) && t.sw.entries.Keys == s.sw.entries.Keys
  {}

  lemma SameCfg(s: Node, ev: Event, t: Node)
    requires Follows(s, ev, t) && !ev.Configure?
    ensures t.cfg == s.cfg && t.mac == s.mac
  {
    hide Advanced, ClimbedTo, RolesSettled, Heard, ResyncPorts, ResyncEntries, Next;
  }

  /** That port removed and registered anew: the tree still holds the old entry, blocked. */
  lemma ReusedPort() returns (events: seq<Event>, states: seq<Node>)
    ensures StpRuns.Run(events, states) && |events| == 7 && NodeInv(states[7])
    ensures var n := states[7];
            && n.cfg.enabled && Has(n, "a", 1, Attrs()) && n.sw.entries[1].stpState == Forwarding && n.sw.removing == {}
            && "a" in n.ports && n.ports["a"].entry == 0 && n.ports["a"].role == BlockedRole
            && 0 in n.sw.entries && n.sw.entries[0].gone
  {
    hide NodeInv, Follows;
    events, states := BlockedPort();
    var s := states[3];
    assert |"a"| == 1;
    var t := PlaneHappens(s, Unregister("a"));
    RunExtends(events, states, Plane(Unregister("a")), t);
    events, states := events + [Plane(Unregister("a"))], states + [t];
    var u := PlaneHappens(t, MarkGone(0));
    RunExtends(events, states, Plane(MarkGone(0)), u);
    events, states := events + [Plane(MarkGone(0))], states + [u];
    var w := PlaneHappens(u, FinishRemove(0));
    RunExtends(events, states, Plane(FinishRemove(0)), w);
    events, states := events + [Plane(FinishRemove(0))], states + [w];
    assert w.sw.removing == {};
    events, states := AddHappens(events, states, "a");
  }

  /**
   The run: a blocked port forwards once its ID is registered anew; the next port change only
   drops the old entry and leaves the new port outside the tree, forwarding; the one after
   that brings it in.
   */
  lemma ReusedForwards() returns (events: seq<Event>, states: seq<Node>)
    ensures StpRuns.Run(events, states) && |events| == 9
    ensures var n := states[7];
            && "a" in n.ports && n.ports["a"].role == BlockedRole && !Current(n) && !GatedByRole(n)
            && Has(n, "a", 1, Attrs()) && n.sw.entries[1].stpState == Forwarding
    ensures var n := states[8];
            && Current(n) && !Enlisted(n) && "a" !in n.ports && Takes(n.sw.ports, n.sw.entries, "a")
            && n.sw.entries[n.sw.ports["a"]].stpState == Forwarding
    ensures UpToDate(states[9])
  {
    hide NodeInv, Follows, GatedByRole;
    events, states := ReusedPort();
    var s := states[7];
    GatedByRoleIff(s);
    var t := ChangeHappens(s);
    RunExtends(events, states, Change, t);
    EventResyncs(s, Change, t);
    SameCfg(s, Change, t);
    ReusedLeftOut(s, t, "a");
    events, states := events + [Change], states + [t];
    var u := ChangeHappens(t);
    RunExtends(events, states, Change, u);
    EventResyncs(t, Change, u);
    TwoResyncs(s, t, u);
    events, states := events + [Change], states + [u];
  }

  // ------------------------------------------------------------- a lost root

  /** A root's own hello, as it comes in on the wire. */
  function RootHello(): Config { Config(0, Vector(1, 0, 1, 1), 0, 5120, 512, 3840) }

  /** Two ports enrolled by a port change, with nothing heard on either. */
  lemma TwoPorts() returns (events: seq<Event>, states: seq<Node>)
    ensures StpRuns.Run(events, states) && |events| == 4 && NodeInv(states[4])
    ensures var n := states[4];
            && n.cfg == WithDefaults(ON) && n.mac == [2, 0, 0, 0, 0, 1] && TwoRegistered(n, Attrs())
            && n.ports.Keys == {"a", "bb"} && n.ports["a"].info == None && n.ports["bb"].info == None
            && n.ports["a"].entry == 0 && n.ports["bb"].entry == 1
  {
    hide NodeInv, Follows, ResyncPorts, ResyncEntries;
    events, states := SwitchedOn([2, 0, 0, 0, 0, 1]);
    assert |"a"| == 1 && |"bb"| == 2 && |""| == 0;
    events, states := AddHappens(events, states, "a");
    events, states := AddHappens(events, states, "bb");
    var s := states[3];
    var t := ChangeHappens(s);
    RunExtends(events, states, Change, t);
    assert s.sw.ports.Keys == {"a", "bb"};
    TwoEnrolled(s, t);
    events, states := events + [Change], states + [t];
  }

  /** A port change finds two new ports and enrols both. */
  lemma TwoEnrolled(s: Node, t: Node)
    requires NodeInv(s) && s.cfg.enabled && Follows(s, Change, t) && s.ports == map[] && TwoRegistered(s, Attrs())
    ensures t.cfg == s.cfg && t.mac == s.mac && TwoRegistered(t, Attrs())
    ensures t.ports.Keys == {"a", "bb"} && t.ports["a"].info == None && t.ports["bb"].info == None
    ensures t.ports["a"].entry == 0 && t.ports["bb"].entry == 1
  {
    hide NodeInv, Follows;
    EventResyncs(s, Change, t);
    SameCfg(s, Change, t);
    EventInfo(s, Change, t, "a");
    EventInfo(s, Change, t, "bb");
    KeepsHas(s, t, "a", 0);
    KeepsHas(s, t, "bb", 1);
    assert forall id :: id in t.ports <==> id == "a" || id == "bb";
    assert t.ports.Keys == {"a", "bb"};
  }

  /** Ports "a" and "bb" are all the ports there are. */
  predicate TwoRegistered(n: Node, attrs: PortAttrs) {
    && n.sw.ports.Keys == {"a", "bb"} && n.sw.removing == {}
    && Has(n, "a", 0, attrs) && Has(n, "bb", 1, Attrs())
  }

  /** The bridge hears a better root on port "a" and elects that port. */
  lemma RootFound() returns (events: seq<Event>, states: seq<Node>)
    ensures StpRuns.Run(events, states) && |events| == 5 && NodeInv(states[5])
    ensures var n := states[5];
            && n.cfg.enabled && TwoRegistered(n, Attrs()) && n.rootPort == "a" && n.rootID == 1
            && n.ports.Keys == {"a", "bb"} && n.ports["bb"].info == None && n.ports["bb"].role == DesignatedRole
            && n.ports["a"].entry == 0 && n.ports["bb"].entry == 1
  {
    hide NodeInv, Follows, ViewOf, PassPorts, PassEntries;
    events, states := TwoPorts();
    var s, c := states[4], RootHello();
    var frame := ConfigFrame([2, 0, 0, 0, 0, 9], c);
    ConfigRoundTrip([2, 0, 0, 0, 0, 9], c);
    hide ConfigFrame, Decode, IsBPDU, FromBE;
    var t := ReceiveHappens(s, "a", frame);
    RunExtends(events, states, Receive("a", frame), t);
    SameCfg(s, Receive("a", frame), t);
    ReceivedFrame(s, "a", frame, t);
    EventInfo(s, Receive("a", frame), t, "a");
    EventInfo(s, Receive("a", frame), t, "bb");
    RootElected(t);
    events, states := events + [Receive("a", frame)], states + [t];
  }

  /** A received message changes neither the registry nor who is in the tree. */
  lemma ReceivedFrame(s: Node, id: string, frame: Frame, t: Node)
    requires NodeInv(s) && Follows(s, Receive(id, frame), t) && TwoRegistered(s, Attrs())
    ensures TwoRegistered(t, Attrs()) && t.ports.Keys == s.ports.Keys
    ensures forall p | p in s.ports :: t.ports[p].entry == s.ports[p].entry
  {
    hide NodeInv, Heard, Linked, Gated, Decode, FromBE, Signalled;
    BridgeTied(s, Receive(id, frame), t);
    SameSwitch(s, Receive(id, frame), t);
    InvTied(s);
    SignalPorts(s.cfg, s.Snap());
    if s.cfg.enabled && id in s.ports && Decode(frame).Some? && Decode(frame).value.ConfigMessage? {
      var m := Decode(frame).value;
      HeardMembers(s.cfg, id, m.flags, m.vector, m.age, s.Snap(), t.Snap());
    }
  }

  lemma InvTied(s: Node)
    requires NodeInv(s)
    ensures Tied(s.Snap())
  {}

  lemma SignalPorts(cfg: StpConfig, s: Snapshot)
    ensures Signalled(cfg, s).ports == s.ports
  {}

  lemma HeardMembers(cfg: StpConfig, id: string, flags: Byte, heard: Vector, age: nat, s: Snapshot, t: Snapshot)
    requires id in s.ports && Tied(s) && Heard(cfg, id, flags, heard, age, s, t)
    ensures t.ports.Keys == s.ports.Keys && forall p | p in s.ports :: t.ports[p].entry == s.ports[p].entry
  {
    hide RolesSettled, Linked, Gated, FromWire;
    if Accepts(s.ports[id].info, heard) {
      var stored := s.(ports := Stored(s.ports, id, heard, FromWire(age)));
      var u: Snapshot :| RolesSettled(cfg, stored, u) && t.ports == u.ports;
      StoredPrepared(s, id, heard, FromWire(age));
      SettledPorts(cfg, stored, u);
      forall p | p in s.ports
        ensures t.ports[p].entry == s.ports[p].entry
      {
        SameMembers(cfg, stored, u, p);
      }
    }
  }

  /** With a better root on "a" and nothing on "bb", a recomputed bridge has "a" as root port and "bb" designated. */
  lemma RootElected(t: Node)
    requires t.View().Recomputed() && t.ports.Keys == {"a", "bb"} && TwoRegistered(t, Attrs())
    requires t.ports["a"].entry == 0 && t.ports["bb"].entry == 1
    requires t.ports["a"].info == Some(Vector(1, 0, 1, 1)) && t.ports["bb"].info == None
    requires t.cfg == WithDefaults(ON)
    ensures t.rootPort == "a" && t.rootID == 1 && t.ports["bb"].role == DesignatedRole
  {
    assert |"a"| == 1 && |"bb"| == 2 && |""| == 0;
    hide FromBE;
    var v := t.View();
    assert v.Usable("a") && v.Candidate("a").Better(v.Own());
    assert forall p | v.Usable(p) :: p == "a";
    assert v.ports["bb"].role == v.RoleFor("bb");
  }

  /**
   The run: the root port is disabled, and the next tick drops it while the claim stands; an
   acknowledgement then carries age 0 for a root the bridge no longer hears.
   */
  lemma LostRootAcknowledges() returns (events: seq<Event>, states: seq<Node>)
    ensures StpRuns.Run(events, states) && |events| == 7
    ensures var t := states[7];
            && t.rootPort == "a" && t.rootID == 1 && "a" !in t.ports
            && "bb" in t.ports && t.ports["bb"].role == DesignatedRole && t.ports["bb"].entry in t.sw.entries
            && ConfigOf(t.Claim(), t.cfg, t.ports, t.sw.entries, "bb", 0x80).age == 0
  {
    hide NodeInv, Follows, ResyncPorts, ResyncEntries, Stays;
    events, states := RootFound();
    var off := Attrs().(disabled := true);
    var s := PlaneHappens(states[5], SetAttrs("a", off));
    RunExtends(events, states, Plane(SetAttrs("a", off)), s);
    events, states := events + [Plane(SetAttrs("a", off))], states + [s];
    assert |"a"| == 1 && |"bb"| == 2;
    assert TwoRegistered(s, off);
    RootOff(s, 1);
    var t := QuietTick(s, 1);
    RunExtends(events, states, Tick(1), t);
    AcknowledgesYoung(s, 1, t, "bb");
    RootPortDropped(s, 1, t);
    events, states := events + [Tick(1)], states + [t];
  }

  lemma RootOff(s: Node, dt: nat)
    requires NodeInv(s) && TwoRegistered(s, Attrs().(disabled := true)) && s.ports.Keys == {"a", "bb"}
    requires s.ports["bb"].entry == 1 && s.ports["bb"].info == None
    ensures !Stays(s.sw.ports, s.ports, s.sw.entries, "a") && Stays(s.sw.ports, s.ports, s.sw.entries, "bb")
    ensures Expires(ResyncPorts(s.sw.ports, s.ports, s.sw.entries), s.cfg.maxAge, dt) == {}
  {
    hide NodeInv, RegistryInv, Linked, ResyncPorts, ResyncEntries;
    assert |"a"| == 1 && |"bb"| == 2;
    TiedOf(s);
    var ps := ResyncPorts(s.sw.ports, s.ports, s.sw.entries);
    forall id | id in ps
      ensures ps[id].info == None
    {
      ResyncMeaning(s.sw, s.ports, id);
    }
  }
}
