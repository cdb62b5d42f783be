/**
 One bridge of the spanning tree: election, roles, the gates it drives on the
 switch's ports, ageing and transmission. Loops over the port map visit the
 ports in arbitrary order.
 */
module StpBridges {
  import opened Wrappers
  import opened SwitchPorts
  import opened Fdb
  import opened Frames
  import opened SwitchModel
  import opened SwitchCore
  import opened StpVectors
  import opened StpSteps
  import opened Bpdu

  class Bridge {
    const sw: Core
    const mac: MAC
    var cfg: StpConfig
    var ports: Ports
    var rootID: nat
    var rootCost: nat
    var rootPort: string
    var tcWhile: int
    var tcnPending: bool
    var lastHello: nat

    function BridgeID(): nat
      reads this`cfg
    {
      cfg.priority * 0x1_0000_0000_0000 + FromBE(mac)
    }

    function Claim(): RootClaim
      reads this`cfg, this`rootID, this`rootCost, this`rootPort
    {
      RootClaim(BridgeID(), rootID, rootCost, rootPort)
    }

    ghost function View(): BridgeView
      reads this`cfg, this`rootID, this`rootCost, this`rootPort, this`ports, sw`entries
    {
      ViewOf(Claim(), ports, sw.entries)
    }

    ghost function Snap(): Snapshot
      reads this`cfg, this`rootID, this`rootCost, this`rootPort, this`ports, this`tcWhile, this`tcnPending,
            sw`entries, sw.fdb`m
    {
      Snapshot(Claim(), ports, sw.entries, sw.fdb.m, tcWhile, tcnPending)
    }

    ghost function State(): Node
      reads this, sw, sw.fdb
    {
      Node(sw.State(), mac, cfg, rootID, rootCost, rootPort, ports, tcWhile, tcnPending, lastHello)
    }

    ghost predicate Valid()
      reads this, sw, sw.fdb
    {
      && RegistryInv(sw.State()) && Linked(ports, sw.entries) && Gated(ports, sw.entries)
      && (!cfg.enabled ==> ports == map[])
    }

    constructor (sw: Core, mac: MAC)
      requires RegistryInv(sw.State()) && forall h | h in sw.entries :: sw.entries[h].stpState == Forwarding
      ensures Valid() && !cfg.enabled && this.sw == sw && this.mac == mac
    {
      this.sw, this.mac := sw, mac;
      cfg := StpConfig(false, 32768, 2 * SECOND, 20 * SECOND, 15 * SECOND);
      ports, rootID, rootCost, rootPort := map[], 0, 0, "";
      tcWhile, tcnPending, lastHello := 0, false, 0;
    }

    /** Root selection: the best of our own claim and every port's information plus its path cost. */
    method ElectRoot()
      requires Linked(ports, sw.entries)
      modifies this`rootID, this`rootCost, this`rootPort
      ensures View().Elected()
    {
      ghost var v := View();
      var my := BridgeID();
      var best, at := Vector(my, 0, my, 0), "";
      var todo := ports.Keys;
      while todo != {}
        invariant todo <= ports.Keys
        invariant if at == "" then best == v.Own()
                  else v.Usable(at) && best == v.Candidate(at) && best.Better(v.Own())
        invariant forall p | v.Usable(p) && p !in todo :: !v.Candidate(p).Better(best)
        decreases todo
      {
        var id :| id in todo;
        var sp := ports[id];
        if sp.info.Some? && sp.info.value.bridgeID != my {
          var cost := (sp.info.value.cost + sw.entries[sp.entry].attrs.PathCost()) % COST_MODULUS;
          var cand := sp.info.value.(cost := cost);
          if cand.Better(best) { best, at := cand, id; }
        }
        todo := todo - {id};
      }
      rootID, rootCost, rootPort := best.rootID, best.cost, at;
      assert forall p :: View().Usable(p) == v.Usable(p);
      assert forall p | v.Usable(p) :: View().Candidate(p) == v.Candidate(p);
    }

    method AssignRoles() returns (changed: bool)
      requires Linked(ports, sw.entries) && Gated(ports, sw.entries)
      modifies this`ports, sw`entries, sw.fdb`m
      ensures ports == PassPorts(Give(Claim()), old(ports), old(sw.entries), {})
      ensures sw.entries == PassEntries(Give(Claim()), old(ports), old(sw.entries), {})
      ensures changed <==> Movers(Claim(), old(ports), old(sw.entries)) != {}
      ensures DynamicCleared(sw.fdb.m) == DynamicCleared(old(sw.fdb.m))
      ensures !changed ==> sw.fdb.m == old(sw.fdb.m)
    {
      changed := false;
      ghost var was, gates := ports, sw.entries;
      var todo := ports.Keys;
      PassStart(Give(Claim()), ports, sw.entries);
      while todo != {}
        invariant todo <= was.Keys
        invariant ports == PassPorts(Give(Claim()), was, gates, todo)
        invariant sw.entries == PassEntries(Give(Claim()), was, gates, todo)
        invariant changed <==> Movers(Claim(), was, gates) - todo != {}
        invariant DynamicCleared(sw.fdb.m) == DynamicCleared(old(sw.fdb.m))
        invariant !changed ==> sw.fdb.m == old(sw.fdb.m)
        decreases todo
      {
        var id :| id in todo;
        var moved := GiveRole(id, was, gates, todo);
        changed := changed || moved;
        todo := todo - {id};
      }
      assert todo == {};
    }

    /** Gives one port its role; `todo` are the ports still waiting for theirs. */
    method GiveRole(id: string, ghost was: Ports, ghost gates: Entries, ghost todo: set<string>) returns (moved: bool)
      requires Linked(was, gates) && Gated(was, gates) && todo <= was.Keys && id in todo
      requires ports == PassPorts(Give(Claim()), was, gates, todo)
               && sw.entries == PassEntries(Give(Claim()), was, gates, todo)
      modifies this`ports, sw`entries, sw.fdb`m
      ensures ports == PassPorts(Give(Claim()), was, gates, todo - {id})
      ensures sw.entries == PassEntries(Give(Claim()), was, gates, todo - {id})
      ensures moved <==> Moves(Claim(), was, gates, id)
      ensures DynamicCleared(sw.fdb.m) == DynamicCleared(old(sw.fdb.m))
      ensures !moved ==> sw.fdb.m == old(sw.fdb.m)
    {
      PassStep(Give(Claim()), was, gates, todo, id);
      var sp := ports[id];
      var role := RoleOf(Claim(), id, sp, sw.entries[sp.entry]);
      moved := role != sp.role;
      ClearingAbsorbsFlush(sw.fdb.m, id);
      ApplyRole(id, role);
    }

    /** Blocked ports drop straight to Blocking; others start the climb if they were there. */
    method ApplyRole(id: string, role: Role)
      requires id in ports && ports[id].entry in sw.entries
      modifies this`ports, sw`entries, sw.fdb`m
      ensures var p := old(ports)[id]; var e := old(sw.entries)[p.entry];
              && ports == old(ports)[id := WithRole(p, role, e.stpState)]
              && sw.entries == old(sw.entries)[p.entry := e.(stpState := GateAfter(role, e.stpState))]
      ensures var cur := old(sw.entries)[old(ports)[id].entry].stpState;
              sw.fdb.m == if role == BlockedRole && cur != Blocking then PortFlushed(old(sw.fdb.m), id)
                            else old(sw.fdb.m)
    {
      var sp := ports[id];
      var e := sw.entries[sp.entry];
      sp := sp.(role := role);
      if role == BlockedRole {
        if e.stpState != Blocking {
          sw.entries := sw.entries[sp.entry := e.(stpState := Blocking)];
          sw.fdb.FlushPort(id);
        }
      } else if e.stpState == Blocking {
        sw.entries := sw.entries[sp.entry := e.(stpState := Listening)];
        sp := sp.(stateTimer := 0);
      }
      ports := ports[id := sp];
    }

    /** The root advertises the change; others ask for it. Either way learned addresses are forgotten. */
    method SignalTopologyChange()
      modifies this`tcWhile, this`tcnPending, sw.fdb`m
      ensures Snap() == Signalled(cfg, old(Snap()))
    {
      if rootPort == "" { tcWhile := cfg.maxAge + cfg.forwardDelay; } else { tcnPending := true; }
      var _ := sw.fdb.Flush("", None);
    }

    /** Gives the ports the roles of an elected claim and signals a change. */
    method SettleRoles()
      requires Linked(ports, sw.entries) && Gated(ports, sw.entries)
      modifies this`ports, this`tcWhile, this`tcnPending, sw`entries, sw.fdb`m
      ensures ports == PassPorts(Give(Claim()), old(ports), old(sw.entries), {})
      ensures sw.entries == PassEntries(Give(Claim()), old(ports), old(sw.entries), {})
      ensures var given := old(Snap()).(ports := ports, entries := sw.entries);
              Snap() == if Movers(Claim(), old(ports), old(sw.entries)) == {} then given else Signalled(cfg, given)
    {
      hide PassPorts, PassEntries, Movers, Linked, Gated, DynamicCleared;
      ClearingTwice(sw.fdb.m);
      var changed := AssignRoles();
      if changed { SignalTopologyChange(); }
    }

    /** Elects the root and gives every port its role; any role change is a topology change. */
    method Recompute()
      requires Valid()
      modifies this`ports, this`rootID, this`rootCost, this`rootPort, this`tcWhile, this`tcnPending
      modifies sw`entries, sw.fdb`m
      ensures Valid()
      ensures if cfg.enabled then RolesSettled(cfg, old(Snap()), Snap()) else Snap() == old(Snap())
    {
      hide Linked, Gated, RegistryInv, PassPorts, PassEntries, Movers, ViewOf;
      if cfg.enabled {
        ghost var s, ps := sw.State(), ports;
        ElectRoot();
        ghost var c := Claim();
        assert ViewOf(c, ps, s.entries).Elected();
        SettleRoles();
        GivenAll(c, s, ps, sw.fdb.m);
      }
    }

    /** Resets what we know of the root to ourselves. */
    method BecomeRoot()
      requires Valid()
      modifies this`ports, this`rootID, this`rootCost, this`rootPort, this`tcWhile, this`tcnPending
      modifies sw`entries, sw.fdb`m
      ensures Valid()
      ensures if cfg.enabled then RolesSettled(cfg, old(Snap()), Snap())
              else Snap() == old(Snap()).(claim := RootClaim(BridgeID(), BridgeID(), 0, ""))
    {
      hide PassPorts, PassEntries, Movers, ViewOf, RegistryInv, Linked, Gated;
      rootID, rootCost, rootPort := BridgeID(), 0, "";
      Recompute();
    }

    /** Enrols the participating ports of the switch that are not enrolled yet. */
    method Enrol()
      requires Indexed(sw.State())
      modifies this`ports, sw`entries
      ensures ports == EnrolPorts(sw.ports, old(ports), old(sw.entries), {})
      ensures sw.entries == EnrolEntries(sw.ports, old(ports), old(sw.entries), {})
    {
      ghost var was, gates := ports, sw.entries;
      var todo := sw.ports.Keys;
      assert ports == EnrolPorts(sw.ports, was, gates, todo) && sw.entries == EnrolEntries(sw.ports, was, gates, todo);
      while todo != {}
        invariant todo <= sw.ports.Keys
        invariant ports == EnrolPorts(sw.ports, was, gates, todo)
        invariant sw.entries == EnrolEntries(sw.ports, was, gates, todo)
        decreases todo
      {
        var id :| id in todo;
        EnrolPortsStep(sw.ports, was, gates, todo, id);
        EnrolEntriesStep(sw.ports, was, gates, todo, id);
        var h := sw.ports[id];
        if sw.entries[h].attrs.stp && !sw.entries[h].attrs.disabled && id !in ports {
          ports := ports[id := StpPort(h, BlockedRole, None, 0, 0)];
          sw.entries := sw.entries[h := sw.entries[h].(stpState := Blocking)];
        }
        todo := todo - {id};
      }
      assert todo == {};
    }

    /** Releases the enrolled ports that no longer take part. */
    method Drop()
      requires Linked(ports, sw.entries)
      modifies this`ports, sw`entries
      ensures ports == DropPorts(sw.ports, old(ports), old(sw.entries), {})
      ensures sw.entries == DropEntries(sw.ports, old(ports), old(sw.entries), {})
    {
      ghost var was, gates := ports, sw.entries;
      var todo := ports.Keys;
      assert ports == DropPorts(sw.ports, was, gates, todo) && sw.entries == DropEntries(sw.ports, was, gates, todo);
      while todo != {}
        invariant todo <= was.Keys
        invariant ports == DropPorts(sw.ports, was, gates, todo)
        invariant sw.entries == DropEntries(sw.ports, was, gates, todo)
        decreases todo
      {
        var id :| id in todo;
        DropStep(sw.ports, was, gates, todo, id);
        if !Stays(sw.ports, ports, sw.entries, id) {
          var h := ports[id].entry;
          sw.entries := sw.entries[h := sw.entries[h].(stpState := Forwarding)];
          ports := ports - {id};
        }
        todo := todo - {id};
      }
      assert todo == {};
    }

    /** Aligns the tree's ports with the participating ports of the switch. */
    method Resync()
      requires RegistryInv(sw.State()) && Linked(ports, sw.entries) && Gated(ports, sw.entries)
      modifies this`ports, sw`entries
      ensures ports == ResyncPorts(sw.ports, old(ports), old(sw.entries))
      ensures sw.entries == ResyncEntries(sw.ports, old(ports), old(sw.entries))
    {
      EnrolKeeps(sw.State(), ports);
      Enrol();
      Drop();
    }

    method AgeInfos(dt: nat) returns (expired: bool)
      requires Linked(ports, sw.entries)
      modifies this`ports
      ensures ports == PassPorts(Age(cfg.maxAge, dt), old(ports), sw.entries, {})
      ensures expired <==> Expires(old(ports), cfg.maxAge, dt) != {}
      ensures expired <==> exists id :: id in old(ports) && old(ports)[id].info.Some? && ports[id].info.None?
      ensures ports.Keys == old(ports).Keys && forall id | id in ports ::
                ports[id].info == if old(ports)[id].infoAge + dt < cfg.maxAge then old(ports)[id].info else None
    {
      ghost var was := ports;
      expired := false;
      var todo := ports.Keys;
      PassStart(Age(cfg.maxAge, dt), ports, sw.entries);
      while todo != {}
        invariant todo <= was.Keys && ports == PassPorts(Age(cfg.maxAge, dt), was, sw.entries, todo)
        invariant expired <==> Expires(was, cfg.maxAge, dt) - todo != {}
        decreases todo
      {
        var id :| id in todo;
        var gone := AgeInfo(id, dt, was, todo);
        expired := expired || gone;
        todo := todo - {id};
      }
      assert todo == {};
    }

    method AgeInfo(id: string, dt: nat, ghost was: Ports, ghost todo: set<string>) returns (expired: bool)
      requires Linked(was, sw.entries) && todo <= was.Keys && id in todo
      requires ports == PassPorts(Age(cfg.maxAge, dt), was, sw.entries, todo)
      modifies this`ports
      ensures ports == PassPorts(Age(cfg.maxAge, dt), was, sw.entries, todo - {id})
      ensures expired <==> id in Expires(was, cfg.maxAge, dt)
    {
      PassStep(Age(cfg.maxAge, dt), was, sw.entries, todo, id);
      expired := false;
      var sp := ports[id];
      if sp.info.Some? {
        sp := sp.(infoAge := sp.infoAge + dt);
        if sp.infoAge >= cfg.maxAge {
          sp := sp.(info := None);
          expired := true;
        }
        ports := ports[id := sp];
      }
    }

    /** Ports that are not blocked climb Listening, Learning, Forwarding, paced by the forward delay. */
    method ClimbAll(dt: nat)
      requires Linked(ports, sw.entries)
      modifies this`ports, sw`entries, sw.fdb`m
      ensures ports == PassPorts(Climb(cfg.forwardDelay, dt), old(ports), old(sw.entries), {})
      ensures sw.entries == PassEntries(Climb(cfg.forwardDelay, dt), old(ports), old(sw.entries), {})
      ensures sw.fdb.m == PortsFlushed(old(sw.fdb.m), Risers(old(ports), old(sw.entries), cfg.forwardDelay, dt))
    {
      hide PassPorts, PassEntries, PortsFlushed, Rises;
      ghost var was, gates := ports, sw.entries;
      ghost var risers := Risers(was, gates, cfg.forwardDelay, dt);
      var todo := ports.Keys;
      PassStart(Climb(cfg.forwardDelay, dt), ports, sw.entries);
      FlushOneMore(sw.fdb.m, {}, "");
      assert risers - todo == {};
      while todo != {}
        invariant todo <= was.Keys && ports == PassPorts(Climb(cfg.forwardDelay, dt), was, gates, todo)
        invariant sw.entries == PassEntries(Climb(cfg.forwardDelay, dt), was, gates, todo)
        invariant sw.fdb.m == PortsFlushed(old(sw.fdb.m), risers - todo)
        decreases todo
      {
        var id :| id in todo;
        FlushOneMore(old(sw.fdb.m), risers - todo, id);
        ClimbOne(id, dt, was, gates, todo);
        assert risers - (todo - {id}) == if id in risers then risers - todo + {id} else risers - todo;
        todo := todo - {id};
      }
      assert todo == {} && risers - todo == risers;
    }

    method ClimbOne(id: string, dt: nat, ghost was: Ports, ghost gates: Entries, ghost todo: set<string>)
      requires Linked(was, gates) && todo <= was.Keys && id in todo
      requires ports == PassPorts(Climb(cfg.forwardDelay, dt), was, gates, todo)
      requires sw.entries == PassEntries(Climb(cfg.forwardDelay, dt), was, gates, todo)
      modifies this`ports, sw`entries, sw.fdb`m
      ensures ports == PassPorts(Climb(cfg.forwardDelay, dt), was, gates, todo - {id})
      ensures sw.entries == PassEntries(Climb(cfg.forwardDelay, dt), was, gates, todo - {id})
      ensures sw.fdb.m == if Rises(was, gates, cfg.forwardDelay, dt, id) then PortFlushed(old(sw.fdb.m), id)
                            else old(sw.fdb.m)
    {
      PassStep(Climb(cfg.forwardDelay, dt), was, gates, todo, id);
      var sp := ports[id];
      var e := sw.entries[sp.entry];
      if sp.role == BlockedRole || (e.stpState != Listening && e.stpState != Learning) { return; }
      sp := sp.(stateTimer := sp.stateTimer + dt);
      if sp.stateTimer >= cfg.forwardDelay {
        sp := sp.(stateTimer := 0);
        if e.stpState == Listening {
          sw.entries := sw.entries[sp.entry := e.(stpState := Learning)];
        } else {
          sw.entries := sw.entries[sp.entry := e.(stpState := Forwarding)];
          sw.fdb.FlushPort(id);
        }
      }
      ports := ports[id := sp];
    }

    function ConfigFor(id: string, flags: Byte): Config
      requires id in ports && ports[id].entry in sw.entries
      reads this`cfg, this`rootID, this`rootCost, this`rootPort, this`ports, sw`entries
    {
      ConfigOf(Claim(), cfg, ports, sw.entries, id, flags)
    }

    /**
     Whatever the bridge believes within the widths of its fields, the frame built for a port is an
     untagged BPDU that decodes to exactly that.
     */
    lemma ConfigDecodes(id: string, flags: Byte)
      requires id in ports && ports[id].entry in sw.entries
      requires cfg.priority < 0x1_0000 && rootID < 0x1_0000_0000_0000_0000 && rootCost < COST_MODULUS
      requires sw.entries[ports[id].entry].attrs.stpPriority < 0x100
      ensures var f := ConfigFrame(mac, ConfigFor(id, flags));
              && IsBPDU(f) && ReservedGroup(DstMAC(f)) && Parse(f) == Some(FrameView(f, false, 0))
              && Decode(f) == Some(ConfigMessage(flags, Vector(rootID, rootCost, BridgeID(),
                                                               sw.entries[ports[id].entry].StpPortID()),
                                                 ConfigFor(id, flags).age))
    {
      MacFits(mac);
      ConfigRoundTrip(mac, ConfigFor(id, flags));
    }

    /** Configuration BPDUs out of designated ports, while the root information is fresh. */
    method TransmitConfigs() returns (sent: map<string, Config>)
      requires Linked(ports, sw.entries)
      ensures sent == State().Hello(if tcWhile > 0 then 1 else 0)
      ensures forall id :: id in sent <==> id in ports && View().Transmits(id).Some?
      ensures forall id | id in sent :: View().Transmits(id) == Some(sent[id].vector)
      ensures forall id :: id in sent <==>
                && id in ports && ports[id].role == DesignatedRole
                && (rootPort == "" || (rootPort in ports && ports[rootPort].info.Some?))
    {
      hide ViewOf, ConfigOf;
      sent := map[];
      if rootPort != "" && (rootPort !in ports || ports[rootPort].info == None) {
        HelloIs(State(), if tcWhile > 0 then 1 else 0, sent);
        return;
      }
      var todo := ports.Keys;
      while todo != {}
        invariant todo <= ports.Keys
        invariant forall id :: id in sent <==> id in ports && id !in todo && ports[id].role == DesignatedRole
        invariant forall id | id in sent :: sent[id] == ConfigFor(id, if tcWhile > 0 then 1 else 0)
        decreases todo
      {
        var id :| id in todo;
        if ports[id].role == DesignatedRole {
          sent := sent[id := ConfigFor(id, if tcWhile > 0 then 1 else 0)];
        }
        todo := todo - {id};
      }
      HelloIs(State(), if tcWhile > 0 then 1 else 0, sent);
    }

    /** First part of a tick: resync and ageing. */
    method Refresh(dt: nat) returns (expired: bool)
      requires Valid()
      modifies this`ports, sw`entries
      ensures ports == AgedPorts(sw.ports, old(ports), old(sw.entries), cfg.maxAge, dt)
      ensures sw.entries == ResyncEntries(sw.ports, old(ports), old(sw.entries))
      ensures expired <==> Expires(ResyncPorts(sw.ports, old(ports), old(sw.entries)), cfg.maxAge, dt) != {}
    {
      ResyncKeeps(sw.State(), ports);
      Resync();
      expired := AgeInfos(dt);
    }

    /** Resync, ageing, and a recompute when something expired. */
    method Advance(dt: nat)
      requires Valid() && cfg.enabled
      modifies this`ports, this`rootID, this`rootCost, this`rootPort, this`tcWhile, this`tcnPending
      modifies sw`entries, sw.fdb`m
      ensures Valid() && Fresh(ports, cfg.maxAge)
      ensures Advanced(cfg, sw.ports, dt, old(Snap()), Snap())
    {
      hide Linked, Gated, RegistryInv, Fresh, PassPorts, PassEntries, AgedPorts, ResyncPorts,
           ResyncEntries, Movers, ViewOf;
      RefreshKeeps(sw.State(), ports, cfg.maxAge, dt);
      var expired := Refresh(dt);
      if expired {
        ghost var p2, e1 := ports, sw.entries;
        Recompute();
        FreshAfter(Give(Claim()), p2, e1, cfg.maxAge);
        assert Signalled(cfg, Snap()).ports == ports;
      }
    }

    /** Last part of a tick: the climb. */
    method ClimbKeeps(dt: nat)
      requires Valid() && cfg.enabled && Fresh(ports, cfg.maxAge)
      modifies this`ports, sw`entries, sw.fdb`m
      ensures Valid() && Fresh(ports, cfg.maxAge)
      ensures ClimbedTo(cfg, dt, old(Snap()), Snap())
    {
      hide PassPorts, PassEntries, Risers, PortsFlushed, Fresh, Linked, Gated, RegistryInv, OnlyGates;
      ghost var s := sw.State();
      PassGated(Climb(cfg.forwardDelay, dt), ports, sw.entries);
      PassOnlyGates(Climb(cfg.forwardDelay, dt), ports, sw.entries);
      FreshAfter(Climb(cfg.forwardDelay, dt), ports, sw.entries, cfg.maxAge);
      ClimbAll(dt);
      GatesAside(s, sw.entries, sw.fdb.m);
    }

    /** The clock part of a tick; `mid` is the state between ageing and climb. */
    method AdvanceAndClimb(dt: nat) returns (ghost mid: Snapshot)
      requires Valid() && cfg.enabled
      modifies this`ports, this`rootID, this`rootCost, this`rootPort, this`tcWhile, this`tcnPending
      modifies sw`entries, sw.fdb`m
      ensures Valid() && Fresh(ports, cfg.maxAge)
      ensures Advanced(cfg, sw.ports, dt, old(Snap()), mid) && ClimbedTo(cfg, dt, mid, Snap()) && tcWhile == mid.tcWhile
    {
      hide Linked, Gated, RegistryInv, Fresh, Advanced, ClimbedTo;
      Advance(dt);
      mid := Snap();
      ClimbKeeps(dt);
    }

    /** One tick of the protocol clock; at every hello time BPDUs go out. `mid` is the state before the climb. */
    method Tick(dt: nat) returns (sent: map<string, Config>, tcn: Option<string>, ghost mid: Snapshot)
      requires Valid() && cfg.enabled
      modifies this`ports, this`rootID, this`rootCost, this`rootPort, this`tcWhile, this`tcnPending, this`lastHello,
               sw`entries, sw.fdb`m
      ensures Valid() && Fresh(ports, cfg.maxAge)
      ensures Ticked(old(State()), dt, mid, State())
      ensures if old(lastHello) + dt < cfg.helloTime then sent == map[] && tcn == None
              else && sent == State().Hello(if mid.tcWhile > 0 then 1 else 0)
                   && tcn == if tcnPending && rootPort != "" && rootPort in ports then Some(rootPort) else None
    {
      hide Linked, Gated, RegistryInv, Fresh, ViewOf, Advanced, ClimbedTo, Node.Hello;
      sent, tcn := map[], None;
      mid := AdvanceAndClimb(dt);
      lastHello := lastHello + dt;
      if lastHello >= cfg.helloTime {
        lastHello := 0;
        sent := TransmitConfigs();
        ghost var n := State();
        if tcWhile > 0 { tcWhile := tcWhile - cfg.helloTime; }
        HelloAside(n, State(), if mid.tcWhile > 0 then 1 else 0);
        if tcnPending && rootPort != "" && rootPort in ports { tcn := Some(rootPort); }
      }
    }

    /** Stores a heard vector for port id. */
    method Store(id: string, heard: Vector, age: nat)
      requires Valid() && cfg.enabled && id in ports
      modifies this`ports
      ensures Valid()
      ensures ports == old(ports)[id := old(ports)[id].(info := Some(heard), infoAge := age)]
    {
      ports := ports[id := ports[id].(info := Some(heard), infoAge := age)];
      StoreKeeps(old(ports), sw.entries, id, heard, age);
    }

    /** A configuration message heard on port id. */
    method HearConfig(id: string, flags: Byte, heard: Vector, age: nat)
      requires Valid() && cfg.enabled && id in ports
      modifies this`ports, this`rootID, this`rootCost, this`rootPort, this`tcWhile, this`tcnPending
      modifies sw`entries, sw.fdb`m
      ensures Valid()
      ensures Heard(cfg, id, flags, heard, age, old(Snap()), Snap())
    {
      hide Linked, Gated, RegistryInv, RolesSettled, DynamicCleared;
      if Accepts(ports[id].info, heard) {
        Store(id, heard, FromWire(age));
        Recompute();
      }
      ghost var u := Snap();
      if flags % 2 == 1 { ForgetLearned(); }
      if flags >= 0x80 && id == rootPort { tcnPending := false; }
      assert Snap() == u.(fdb := if flags % 2 == 1 then DynamicCleared(u.fdb) else u.fdb,
                          tcnPending := u.tcnPending && !(flags >= 0x80 && id == u.claim.rootPort));
    }

    /** Drops every learned address. */
    method ForgetLearned()
      requires RegistryInv(sw.State())
      modifies sw.fdb`m
      ensures sw.fdb.m == DynamicCleared(old(sw.fdb.m)) && RegistryInv(sw.State())
    {
      ghost var s := sw.State();
      var _ := sw.fdb.Flush("", None);
      GatesAside(s, s.entries, sw.fdb.m);
    }

    /** A BPDU received on the switch port named id; the reply acknowledges a topology change notification. */
    method HandleBPDU(id: string, frame: Frame) returns (reply: Option<Config>)
      requires Valid() && IsBPDU(frame)
      modifies this`ports, this`rootID, this`rootCost, this`rootPort, this`tcWhile, this`tcnPending
      modifies sw`entries, sw.fdb`m
      ensures Valid()
      ensures Handled(old(State()), id, frame, State())
      ensures reply.Some? <==> cfg.enabled && id in old(ports) && Decode(frame) == Some(Tcn)
                               && old(ports)[id].role == DesignatedRole
      ensures reply.Some? ==> id in ports && ports[id].entry in sw.entries && reply == Some(ConfigFor(id, 0x80))
    {
      hide Linked, Gated, RolesSettled, Heard, DynamicCleared, FromBE, RegistryInv;
      reply := None;
      if !cfg.enabled || id !in ports { return; }
      match Decode(frame)
      case None =>
      case Some(Tcn) =>
        if ports[id].role == DesignatedRole {
          ghost var s := sw.State();
          SignalTopologyChange();
          GatesAside(s, s.entries, sw.fdb.m);
          EnrolledEntry(ports, sw.entries, id);
          reply := Some(ConfigFor(id, 0x80));
        }
      case Some(ConfigMessage(flags, heard, age)) => HearConfig(id, flags, heard, age);
    }

    /** A port was added or changed: enrol or withdraw it and recompute. */
    method PortChanged()
      requires Valid()
      modifies this`ports, this`rootID, this`rootCost, this`rootPort, this`tcWhile, this`tcnPending
      modifies sw`entries, sw.fdb`m
      ensures Valid()
      ensures Changed(old(State()), State())
    {
      hide Linked, Gated, RegistryInv, RolesSettled, ResyncPorts, ResyncEntries;
      if cfg.enabled {
        ResyncKeeps(sw.State(), ports);
        Resync();
        Recompute();
      }
    }

    /** Takes every port out of the tree, back to plain forwarding. */
    method TearDown()
      requires RegistryInv(sw.State()) && Linked(ports, sw.entries) && Gated(ports, sw.entries)
      modifies this`ports, sw`entries
      ensures ports == map[] && sw.entries == DropEntries(map[], old(ports), old(sw.entries), {})
      ensures RegistryInv(sw.State()) && forall h | h in sw.entries :: sw.entries[h].stpState == Forwarding
    {
      hide RegistryInv, Gated, OnlyGates;
      ghost var s, was, gates := sw.State(), ports, sw.entries;
      var todo := ports.Keys;
      assert sw.entries == DropEntries(map[], was, gates, todo);
      while todo != {}
        invariant todo <= was.Keys && ports == was && sw.entries == DropEntries(map[], was, gates, todo)
        decreases todo
      {
        var id :| id in todo;
        DropStep(map[], was, gates, todo, id);
        var h := ports[id].entry;
        sw.entries := sw.entries[h := sw.entries[h].(stpState := Forwarding)];
        todo := todo - {id};
      }
      assert todo == {};
      ports := map[];
      DropAll(was, gates);
      GatesAside(s, sw.entries, sw.fdb.m);
    }

    /** Applies a configuration; absent values take their defaults. */
    method SetConfig(want: StpConfig)
      requires Valid()
      modifies this`cfg, this`ports, this`rootID, this`rootCost, this`rootPort, this`tcWhile, this`tcnPending,
               sw`entries, sw.fdb`m
      ensures Valid() && Configured(old(State()), want, State())
    {
      hide RolesSettled, ResyncPorts, ResyncEntries, RegistryInv, Linked, Gated, DropEntries;
      cfg := WithDefaults(want);
      if !cfg.enabled {
        TearDown();
        NoPortsGated(sw.entries);
      } else {
        ResyncKeeps(sw.State(), ports);
        Resync();
        ghost var synced := Snap();
        BecomeRoot();
        ClaimAside(cfg, synced, old(Claim()), Snap());
      }
    }
  }
}
