/**
 Whole runs of a bridge with its switch: ticks, received BPDUs, port changes and
 configurations of the bridge, and every step of the switch itself, in any order.
 */
module StpRuns {
  import opened Wrappers
  import opened SwitchPorts
  import opened Fdb
  import opened Frames
  import opened SwitchModel
  import opened StpVectors
  import opened StpSteps
  import opened StpTimers
  import opened Bpdu

  datatype Event =
    | Tick(dt: nat)
    | Receive(id: string, frame: Frame)
    | Change
    | Configure(want: StpConfig)
    | Plane(step: Step)                    // anything the switch does but moving gates

  ghost predicate Follows(s: Node, ev: Event, t: Node) {
    match ev
    case Tick(dt) => s.cfg.enabled && exists mid :: Ticked(s, dt, mid, t)
    case Receive(id, frame) => IsBPDU(frame) && Handled(s, id, frame, t)
    case Change => Changed(s, t)
    case Configure(want) => Configured(s, want, t)
    case Plane(step) => Enabled(s.sw, step) && !step.SetGate? && t == s.(sw := Next(s.sw, step))
  }

  function Boot(instanceID: nat, maxAge: int, mac: MAC): Node {
    Node(Start(instanceID, maxAge), mac, StpConfig(false, 32768, 2 * SECOND, 20 * SECOND, 15 * SECOND),
         0, 0, "", map[], 0, false, 0)
  }

  /** The states along a run of events, from a bridge that is off and a switch without ports. */
  ghost predicate Run(events: seq<Event>, states: seq<Node>) {
    && |states| == |events| + 1
    && states[0] == Boot(states[0].sw.instanceID, states[0].sw.maxAge, states[0].mac)
    && forall i | 0 <= i < |events| :: Follows(states[i], events[i], states[i + 1])
  }

  // ------------------------------------------------------- roles and gates

  /** The switch is consistent, blocked role and Blocking gate go together, and other ports forward. */
  ghost predicate NodeInv(s: Node) {
    && Inv(s.sw) && Linked(s.ports, s.sw.entries) && Gated(s.ports, s.sw.entries)
    && (!s.cfg.enabled ==> s.ports == map[])
    && 0 < s.cfg.forwardDelay && 0 < s.cfg.maxAge
  }

  predicate Within(m: Table, m': Table) { forall k | k in m' :: k in m && m'[k] == m[k] }

  /** t differs from s in gates and in addresses forgotten, as far as the switch goes. */
  ghost predicate Tame(s: Snapshot, t: Snapshot) { OnlyGates(s.entries, t.entries) && Within(s.fdb, t.fdb) }

  ghost predicate Tied(s: Snapshot) { Linked(s.ports, s.entries) && Gated(s.ports, s.entries) }

  lemma TameInv(s: Node, t: Snapshot)
    requires Inv(s.sw) && Tame(s.Snap(), t)
    ensures Inv(s.With(t).sw)
  {
    hide RegistryInv;
    GatesAside(s.sw, t.entries, t.fdb);
    var u := s.With(t).sw;
    assert forall h :: Registered(u, h) == Registered(s.sw, h);
    forall k | k in u.table
      ensures Backed(u, u.table[k])
    {
      assert Backed(s.sw, s.sw.table[k]);
    }
  }

  lemma SettledTied(cfg: StpConfig, s: Snapshot, t: Snapshot)
    requires Tied(s) && RolesSettled(cfg, s, t)
    ensures Tied(t) && Tame(s, t)
  {
    hide ViewOf, Movers, PassPorts, PassEntries, Linked, Gated, OnlyGates, DynamicCleared, Within;
    PassGated(Give(t.claim), s.ports, s.entries);
    PassOnlyGates(Give(t.claim), s.ports, s.entries);
    ClearedWithin(s.fdb);
  }

  lemma ClearedWithin(m: Table)
    ensures Within(m, m) && Within(m, DynamicCleared(m))
  {}

  lemma ResyncedTied(s: Node)
    requires RegistryInv(s.sw) && Tied(s.Snap())
    ensures Tied(Resynced(s.sw.ports, s.Snap())) && Tame(s.Snap(), Resynced(s.sw.ports, s.Snap()))
  {
    ResyncKeeps(s.sw, s.ports);
    ResyncOnlyGates(s.sw.ports, s.ports, s.sw.entries);
  }

  lemma ResyncOnlyGates(registry: map<string, Handle>, ports: Ports, entries: Entries)
    ensures OnlyGates(entries, ResyncEntries(registry, ports, entries))
  {}

  lemma AdvancedTied(s: Node, dt: nat, t: Snapshot)
    requires RegistryInv(s.sw) && Tied(s.Snap()) && Advanced(s.cfg, s.sw.ports, dt, s.Snap(), t)
    ensures Tied(t) && Tame(s.Snap(), t)
  {
    hide RegistryInv, Linked, Gated, ResyncPorts, ResyncEntries, AgedPorts, RolesSettled, OnlyGates;
    RefreshKeeps(s.sw, s.ports, s.cfg.maxAge, dt);
    ResyncOnlyGates(s.sw.ports, s.ports, s.sw.entries);
    var u := s.Snap().(ports := AgedPorts(s.sw.ports, s.ports, s.sw.entries, s.cfg.maxAge, dt),
                       entries := ResyncEntries(s.sw.ports, s.ports, s.sw.entries));
    if t != u {
      SettledTied(s.cfg, u, t);
      TameTwice(s.Snap(), u, t);
    }
  }

  lemma TameTwice(s: Snapshot, u: Snapshot, t: Snapshot)
    requires Tame(s, u) && Tame(u, t)
    ensures Tame(s, t)
  {}

  lemma ClimbedTied(cfg: StpConfig, dt: nat, s: Snapshot, t: Snapshot)
    requires Tied(s) && ClimbedTo(cfg, dt, s, t)
    ensures Tied(t) && Tame(s, t)
  {
    hide PassPorts, PassEntries, Risers;
    PassGated(Climb(cfg.forwardDelay, dt), s.ports, s.entries);
    PassOnlyGates(Climb(cfg.forwardDelay, dt), s.ports, s.entries);
  }

  lemma HeardTied(cfg: StpConfig, id: string, flags: Byte, heard: Vector, age: nat, s: Snapshot, t: Snapshot)
    requires id in s.ports && Tied(s) && Heard(cfg, id, flags, heard, age, s, t)
    ensures Tied(t) && Tame(s, t)
  {
    hide RolesSettled, Linked, Gated, OnlyGates;
    OnlyGatesSelf(s.entries);
    var u: Snapshot :|
      && (if Accepts(s.ports[id].info, heard)
          then RolesSettled(cfg, s.(ports := Stored(s.ports, id, heard, FromWire(age))), u) else u == s)
      && t == u.(fdb := if flags % 2 == 1 then DynamicCleared(u.fdb) else u.fdb,
                 tcnPending := u.tcnPending && !(flags >= 0x80 && id == u.claim.rootPort));
    if Accepts(s.ports[id].info, heard) {
      StoreKeeps(s.ports, s.entries, id, heard, FromWire(age));
      SettledTied(cfg, s.(ports := Stored(s.ports, id, heard, FromWire(age))), u);
    }
  }

  lemma OnlyGatesSelf(entries: Entries)
    ensures OnlyGates(entries, entries)
  {}

  /** A step of the bridge leaves a snapshot that is tied, and touches gates and learned addresses only. */
  lemma BridgeTied(s: Node, ev: Event, t: Node)
    requires NodeInv(s) && Follows(s, ev, t) && !ev.Plane?
    ensures Tied(t.Snap()) && Tame(s.Snap(), t.Snap())
  {
    hide RolesSettled, Advanced, ClimbedTo, Heard, ResyncPorts, ResyncEntries, DropEntries,
         Linked, Gated, OnlyGates, RegistryInv;
    hide Within, DynamicCleared;
    OnlyGatesSelf(s.sw.entries);
    ClearedWithin(s.sw.table);
    match ev
    case Tick(dt) =>
      var mid :| Ticked(s, dt, mid, t);
      AdvancedTied(s, dt, mid);
      var u := t.Snap().(tcWhile := mid.tcWhile);
      ClimbedTied(s.cfg, dt, mid, u);
      TameTwice(s.Snap(), mid, u);
    case Receive(id, frame) =>
      if s.cfg.enabled && id in s.ports && Decode(frame) != None {
        match Decode(frame).value
        case Tcn =>
        case ConfigMessage(flags, heard, age) => HeardTied(s.cfg, id, flags, heard, age, s.Snap(), t.Snap());
      }
    case Change =>
      if s.cfg.enabled {
        ResyncedTied(s);
        SettledTied(s.cfg, Resynced(s.sw.ports, s.Snap()), t.Snap());
        TameTwice(s.Snap(), Resynced(s.sw.ports, s.Snap()), t.Snap());
      }
    case Configure(want) =>
      if want.enabled {
        ResyncedTied(s);
        SettledTied(WithDefaults(want), Resynced(s.sw.ports, s.Snap()), t.Snap());
        TameTwice(s.Snap(), Resynced(s.sw.ports, s.Snap()), t.Snap());
      } else {
        DropAll(s.ports, s.sw.entries);
        NoPortsGated(t.sw.entries);
      }
  }

  /** A step of the switch keeps every entry's ID and gate, and adds entries that forward. */
  lemma SwitchStepEntries(s: Switch, step: Step)
    requires RegistryInv(s) && Enabled(s, step) && !step.SetGate?
    ensures var es := Next(s, step).entries;
            && (forall h | h in s.entries :: h in es && es[h].id == s.entries[h].id
                                             && es[h].stpState == s.entries[h].stpState)
            && (forall h | h in es && h !in s.entries :: es[h].stpState == Forwarding)
  {
    hide RegistryInv, Delivered;
    FreshHandle(s);
    if step.Deliver? { DeliveredGates(s, step.h, step.frame, step.now); }
  }

  lemma FreshHandle(s: Switch)
    requires RegistryInv(s)
    ensures s.next !in s.entries
  {}

  lemma DeliveredGates(s: Switch, h: Handle, frame: Frame, now: int)
    requires h in s.entries
    ensures var es := Delivered(s, h, frame, now).entries;
            && es.Keys == s.entries.Keys
            && forall g | g in s.entries :: es[g].id == s.entries[g].id && es[g].stpState == s.entries[g].stpState
  {}

  /** Steps of the switch itself keep ports linked and gated; only the bridge moves gates. */
  lemma SwitchStepGated(s: Switch, step: Step, ports: Ports)
    requires RegistryInv(s) && Linked(ports, s.entries) && Gated(ports, s.entries)
    requires Enabled(s, step) && !step.SetGate?
    ensures Linked(ports, Next(s, step).entries) && Gated(ports, Next(s, step).entries)
  {
    SwitchStepEntries(s, step);
    hide Next, RegistryInv, Enabled;
    var es := Next(s, step).entries;
    assert forall h | h in s.entries :: Enrolled(ports, es, h) == Enrolled(ports, s.entries, h);
  }

  lemma PlaneInv(s: Node, step: Step)
    requires NodeInv(s) && Enabled(s.sw, step) && !step.SetGate?
    ensures NodeInv(s.(sw := Next(s.sw, step)))
  {
    hide Next, RegistryInv, Linked, Gated, Enabled;
    StepInv(s.sw, step);
    SwitchStepGated(s.sw, step, s.ports);
  }

  lemma EventInv(s: Node, ev: Event, t: Node)
    requires NodeInv(s) && Follows(s, ev, t)
    ensures NodeInv(t)
  {
    if ev.Plane? {
      PlaneInv(s, ev.step);
    } else {
      hide Inv, Tied, Tame, RolesSettled, Advanced, ClimbedTo, Heard, ResyncPorts, ResyncEntries, DropEntries;
      BridgeTied(s, ev, t);
      TameInv(s, t.Snap());
      TiedParts(t.Snap());
    }
  }

  lemma TiedParts(s: Snapshot)
    requires Tied(s)
    ensures Linked(s.ports, s.entries) && Gated(s.ports, s.entries)
  {}

  lemma BootInv(s: Node)
    requires s == Boot(s.sw.instanceID, s.sw.maxAge, s.mac)
    ensures NodeInv(s)
  {}

  /** In every reachable state of bridge and switch an enrolled port is blocked if and only if its gate is Blocking. */
  lemma {:induction false} RunGated(events: seq<Event>, states: seq<Node>, i: nat)
    requires Run(events, states) && i <= |events|
    ensures NodeInv(states[i])
  {
    hide NodeInv, Follows;
    if i == 0 {
      BootInv(states[0]);
    } else {
      RunGated(events, states, i - 1);
      EventInv(states[i - 1], events[i - 1], states[i]);
    }
  }

  // ------------------------------------------------------------ dwell times

  predicate Unblocked(s: Snapshot, id: string) { id in s.ports && s.ports[id].role != BlockedRole }

  /** Gate and timer after the event, from what they were: one step of the climb if it was a tick. */
  function Moved(t: Track, ticked: bool, forwardDelay: nat, dt: nat): Track {
    if ticked then Climbed(t, forwardDelay, dt) else t
  }

  /** Before roles are given: kept ports have role, gate and timer they had, new ones are blocked. */
  ghost predicate Prepared(s: Snapshot, u: Snapshot) {
    forall id | id in u.ports ::
      if id in s.ports
      then && u.ports[id].entry == s.ports[id].entry && u.ports[id].role == s.ports[id].role
           && u.ports[id].entry in u.entries && u.ports[id].entry in s.entries
           && TrackOf(u.ports, u.entries, id) == TrackOf(s.ports, s.entries, id)
      else u.ports[id].role == BlockedRole
  }

  /** A port that stays unblocked only climbs; one that becomes unblocked starts to listen,
      and climbs if this is a tick. */
  ghost predicate PortMoves(s: Snapshot, t: Snapshot, id: string, ticked: bool, forwardDelay: nat, dt: nat) {
    Unblocked(t, id) ==>
      && t.ports[id].entry in t.entries
      && TrackOf(t.ports, t.entries, id)
         == if Unblocked(s, id) && s.ports[id].entry in s.entries
            then Moved(TrackOf(s.ports, s.entries, id), ticked, forwardDelay, dt)
            else Moved(Track(Listening, 0), ticked, forwardDelay, dt)
  }

  /** What a pass makes of one port and its gate. */
  lemma PassOne(pass: Pass, ports: Ports, entries: Entries, id: string)
    requires Linked(ports, entries) && id in ports
    ensures var ps, es := PassPorts(pass, ports, entries, {}), PassEntries(pass, ports, entries, {});
            var h := ports[id].entry;
            && h in entries && h in es && id in ps
            && (ps[id], es[h].stpState) == Do(pass, id, ports[id], entries[h]) && ps[id].entry == h
  {
    assert Enrolled(ports, entries, ports[id].entry);
  }

  lemma PreparedMoves(s: Snapshot, u: Snapshot, id: string)
    requires Tied(s) && Prepared(s, u)
    ensures PortMoves(s, u, id, false, 0, 0)
  {}

  /** Giving roles after preparation moves tracks as it should. */
  lemma GivenMoves(cfg: StpConfig, s: Snapshot, u: Snapshot, t: Snapshot, id: string)
    requires Tied(s) && Tied(u) && Prepared(s, u) && RolesSettled(cfg, u, t)
    ensures PortMoves(s, t, id, false, 0, 0)
  {
    SettledPorts(cfg, u, t);
    if Unblocked(t, id) {
      PassOne(Give(t.claim), u.ports, u.entries, id);
      GiveTrack(t.claim, u, id);
    }
  }

  lemma SettledPorts(cfg: StpConfig, u: Snapshot, t: Snapshot)
    requires RolesSettled(cfg, u, t)
    ensures t.ports == PassPorts(Give(t.claim), u.ports, u.entries, {}) && t.ports.Keys == u.ports.Keys
    ensures t.entries == PassEntries(Give(t.claim), u.ports, u.entries, {})
  {}

  lemma GiveTrack(c: RootClaim, u: Snapshot, id: string)
    requires Tied(u) && id in u.ports && u.ports[id].entry in u.entries
    ensures var d := Do(Give(c), id, u.ports[id], u.entries[u.ports[id].entry]);
            d.0.role != BlockedRole ==>
              Track(d.1, d.0.stateTimer)
              == if Unblocked(u, id) then TrackOf(u.ports, u.entries, id) else Track(Listening, 0)
  {}

  lemma ClimbMoves(cfg: StpConfig, dt: nat, s: Snapshot, mid: Snapshot, t: Snapshot, id: string)
    requires Tied(mid) && PortMoves(s, mid, id, false, 0, 0) && ClimbedTo(cfg, dt, mid, t)
    ensures PortMoves(s, t, id, true, cfg.forwardDelay, dt)
  {
    if Unblocked(t, id) {
      PassOne(Climb(cfg.forwardDelay, dt), mid.ports, mid.entries, id);
    }
  }

  lemma ResyncedPrepared(s: Node)
    requires RegistryInv(s.sw) && Tied(s.Snap())
    ensures Prepared(s.Snap(), Resynced(s.sw.ports, s.Snap()))
  {
    hide RegistryInv, Linked, Gated, ResyncPorts, ResyncEntries;
    var u := Resynced(s.sw.ports, s.Snap());
    forall id | id in u.ports
      ensures if id in s.ports then u.ports[id] == s.ports[id] && s.ports[id].entry in s.sw.entries
                                    && u.entries.Keys == s.sw.entries.Keys
                                    && u.entries[s.ports[id].entry] == s.sw.entries[s.ports[id].entry]
              else u.ports[id].role == BlockedRole
    {
      ResyncMeaning(s.sw, s.ports, id);
      if id in s.ports { EnrolledEntry(s.ports, s.sw.entries, id); }
    }
  }

  lemma AgedPrepared(s: Node, dt: nat, u: Snapshot)
    requires RegistryInv(s.sw) && Tied(s.Snap())
    requires u == s.Snap().(ports := AgedPorts(s.sw.ports, s.ports, s.sw.entries, s.cfg.maxAge, dt),
                            entries := ResyncEntries(s.sw.ports, s.ports, s.sw.entries))
    ensures Prepared(s.Snap(), u) && Tied(u)
  {
    hide RegistryInv, Linked, Gated, ResyncPorts, ResyncEntries, PassPorts, PassEntries;
    ResyncedPrepared(s);
    ResyncKeeps(s.sw, s.ports);
    RefreshKeeps(s.sw, s.ports, s.cfg.maxAge, dt);
    var r := Resynced(s.sw.ports, s.Snap());
    AgeGated(s.cfg.maxAge, dt, r.ports, r.entries);
    PassKeys(Age(s.cfg.maxAge, dt), r.ports, r.entries);
    forall id | id in u.ports
      ensures id in r.ports && u.ports[id].entry == r.ports[id].entry && u.ports[id].role == r.ports[id].role
      ensures r.ports[id].entry in r.entries && u.ports[id].stateTimer == r.ports[id].stateTimer
    {
      PassOne(Age(s.cfg.maxAge, dt), r.ports, r.entries, id);
    }
  }

  lemma PassKeys(pass: Pass, ports: Ports, entries: Entries)
    ensures PassPorts(pass, ports, entries, {}).Keys == ports.Keys
  {}

  lemma StoredPrepared(s: Snapshot, id: string, heard: Vector, age: nat)
    requires Tied(s) && id in s.ports
    ensures Prepared(s, s.(ports := Stored(s.ports, id, heard, age)))
            && Tied(s.(ports := Stored(s.ports, id, heard, age)))
  {
    StoreKeeps(s.ports, s.entries, id, heard, age);
  }

  function Elapsed(ev: Event): nat { if ev.Tick? then ev.dt else 0 }

  lemma PlaneMoves(s: Node, step: Step, id: string)
    requires NodeInv(s) && Enabled(s.sw, step) && !step.SetGate?
    ensures PortMoves(s.Snap(), s.(sw := Next(s.sw, step)).Snap(), id, false, 0, 0)
  {
    SwitchStepEntries(s.sw, step);
    hide Next, Enabled, RegistryInv, Gated;
    if id in s.ports { EnrolledEntry(s.ports, s.sw.entries, id); }
  }

  lemma TickMoves(s: Node, dt: nat, mid: Snapshot, t: Node, id: string)
    requires NodeInv(s) && Ticked(s, dt, mid, t)
    ensures PortMoves(s.Snap(), t.Snap(), id, true, s.cfg.forwardDelay, dt)
  {
    hide RolesSettled, ClimbedTo, ResyncPorts, ResyncEntries, AgedPorts, Linked, Gated, RegistryInv, PortMoves;
    var u := s.Snap().(ports := AgedPorts(s.sw.ports, s.ports, s.sw.entries, s.cfg.maxAge, dt),
                       entries := ResyncEntries(s.sw.ports, s.ports, s.sw.entries));
    AgedPrepared(s, dt, u);
    AdvancedTied(s, dt, mid);
    if mid == u { PreparedMoves(s.Snap(), u, id); } else { GivenMoves(s.cfg, s.Snap(), u, mid, id); }
    ClimbMoves(s.cfg, dt, s.Snap(), mid, t.Snap().(tcWhile := mid.tcWhile), id);
    MovesAside(s.Snap(), t.Snap().(tcWhile := mid.tcWhile), t.Snap(), id, true, s.cfg.forwardDelay, dt);
  }

  lemma MovesAside(s: Snapshot, t: Snapshot, t': Snapshot, id: string, ticked: bool, forwardDelay: nat, dt: nat)
    requires PortMoves(s, t, id, ticked, forwardDelay, dt) && t'.ports == t.ports && t'.entries == t.entries
    ensures PortMoves(s, t', id, ticked, forwardDelay, dt)
  {}

  lemma HeardMoves(cfg: StpConfig, id: string, flags: Byte, heard: Vector, age: nat,
                   s: Snapshot, t: Snapshot, p: string)
    requires id in s.ports && Tied(s) && Heard(cfg, id, flags, heard, age, s, t)
    ensures PortMoves(s, t, p, false, 0, 0)
  {
    hide RolesSettled, Linked, Gated, PortMoves;
    var u: Snapshot :|
      && (if Accepts(s.ports[id].info, heard)
          then RolesSettled(cfg, s.(ports := Stored(s.ports, id, heard, FromWire(age))), u) else u == s)
      && t == u.(fdb := if flags % 2 == 1 then DynamicCleared(u.fdb) else u.fdb,
                 tcnPending := u.tcnPending && !(flags >= 0x80 && id == u.claim.rootPort));
    if Accepts(s.ports[id].info, heard) {
      StoredPrepared(s, id, heard, FromWire(age));
      GivenMoves(cfg, s, s.(ports := Stored(s.ports, id, heard, FromWire(age))), u, p);
    } else {
      SamePrepared(s, s, p);
    }
    MovesAside(s, u, t, p, false, 0, 0);
  }

  lemma SamePrepared(s: Snapshot, t: Snapshot, id: string)
    requires Tied(s) && t.ports == s.ports && t.entries == s.entries
    ensures PortMoves(s, t, id, false, 0, 0)
  {}

  /** Every event moves every unblocked port by exactly the climb of a tick, or not at all. */
  lemma EventMoves(s: Node, ev: Event, t: Node, id: string)
    requires NodeInv(s) && Follows(s, ev, t)
    ensures PortMoves(s.Snap(), t.Snap(), id, ev.Tick?, if ev.Tick? then s.cfg.forwardDelay else 0, Elapsed(ev))
  {
    hide RolesSettled, Advanced, ClimbedTo, Heard, ResyncPorts, ResyncEntries, DropEntries,
         Linked, Gated, RegistryInv, PortMoves;
    match ev
    case Tick(dt) =>
      var mid :| Ticked(s, dt, mid, t);
      TickMoves(s, dt, mid, t, id);
    case Receive(p, frame) =>
      if s.cfg.enabled && p in s.ports && Decode(frame) != None && Decode(frame).value.ConfigMessage? {
        var m := Decode(frame).value;
        HeardMoves(s.cfg, p, m.flags, m.vector, m.age, s.Snap(), t.Snap(), id);
      } else {
        SamePrepared(s.Snap(), t.Snap(), id);
      }
    case Change =>
      if s.cfg.enabled {
        ResyncedPrepared(s);
        ResyncedTied(s);
        GivenMoves(s.cfg, s.Snap(), Resynced(s.sw.ports, s.Snap()), t.Snap(), id);
      } else {
        SamePrepared(s.Snap(), t.Snap(), id);
      }
    case Configure(want) =>
      if want.enabled {
        ResyncedPrepared(s);
        ResyncedTied(s);
        GivenMoves(WithDefaults(want), s.Snap(), Resynced(s.sw.ports, s.Snap()), t.Snap(), id);
      } else {
        NoPortsMove(s.Snap(), t.Snap(), id);
      }
    case Plane(step) => PlaneMoves(s, step, id);
  }

  lemma NoPortsMove(s: Snapshot, t: Snapshot, id: string)
    requires t.ports == map[]
    ensures PortMoves(s, t, id, false, 0, 0)
  {}

  function Ticks(events: seq<Event>): nat {
    if events == [] then 0 else Ticks(events[..|events| - 1]) + if events[|events| - 1].Tick? then 1 else 0
  }

  /** Between the states i and j every tick takes d, and the forward delay is F whenever one happens. */
  predicate Paced(events: seq<Event>, states: seq<Node>, i: nat, j: nat, forwardDelay: nat, d: nat)
    requires |states| == |events| + 1 && i <= j <= |events|
  {
    forall k | i <= k < j && events[k].Tick? :: events[k].dt == d && states[k].cfg.forwardDelay == forwardDelay
  }

  /** Port id becomes unblocked with event i and is unblocked in all states up to j. */
  predicate UnblockedThrough(events: seq<Event>, states: seq<Node>, i: nat, j: nat, id: string)
    requires |states| == |events| + 1 && i < j <= |events|
  {
    && !Unblocked(states[i].Snap(), id)
    && forall k | i < k <= j :: Unblocked(states[k].Snap(), id)
  }

  /**
   From the event that unblocks a port on, while it stays unblocked: after n ticks, that event
   included if it is a tick, the port has spent exactly ceil(F/d) of them Listening, then
   exactly ceil(F/d) Learning, and then forwards, whatever else happens.
   */
  lemma {:induction false} DwellTimes(events: seq<Event>, states: seq<Node>, i: nat, j: nat, id: string,
                                      forwardDelay: nat, d: nat)
    requires Run(events, states) && i < j <= |events| && UnblockedThrough(events, states, i, j, id)
    requires 0 < d && 0 < forwardDelay && Paced(events, states, i, j, forwardDelay, d)
    ensures states[j].ports[id].entry in states[j].sw.entries
    ensures TrackOf(states[j].ports, states[j].sw.entries, id) == TrackAt(Ticks(events[i..j]), forwardDelay, d)
    ensures var n, c := Ticks(events[i..j]), Ceil(forwardDelay, d);
            states[j].sw.entries[states[j].ports[id].entry].stpState
            == if n < c then Listening else if n < 2 * c then Learning else Forwarding
    decreases j
  {
    hide NodeInv, Follows, Run;
    RunStep(events, states, j - 1);
    RunGated(events, states, j - 1);
    EventMoves(states[j - 1], events[j - 1], states[j], id);
    assert events[i..j] == events[i..j - 1] + [events[j - 1]];
    TicksSnoc(events[i..j - 1], events[j - 1]);
    assert Unblocked(states[j].Snap(), id);
    if j == i + 1 {
      assert events[i..i] == [];
      TrackStart(forwardDelay, d);
    } else {
      DwellTimes(events, states, i, j - 1, id, forwardDelay, d);
      assert Unblocked(states[j - 1].Snap(), id);
    }
    OneTick(Ticks(events[i..j - 1]), forwardDelay, d);
  }

  lemma RunStep(events: seq<Event>, states: seq<Node>, i: nat)
    requires Run(events, states) && i < |events|
    ensures |states| == |events| + 1 && Follows(states[i], events[i], states[i + 1])
  {}

  lemma TicksSnoc(events: seq<Event>, ev: Event)
    ensures Ticks(events + [ev]) == Ticks(events) + if ev.Tick? then 1 else 0
  {
    assert (events + [ev])[..|events|] == events;
  }

  lemma TrackStart(forwardDelay: nat, d: nat)
    requires 0 < d && 0 < forwardDelay
    ensures TrackAt(0, forwardDelay, d) == Track(Listening, 0)
  {
    CeilIff(0, forwardDelay, d);
  }

  // ------------------------------------------------------- stored information

  /** The configuration message that this event has the bridge store on port id, if any. */
  function Stores(s: Node, ev: Event, id: string): Option<Message> {
    if !ev.Receive? || ev.id != id || !IsBPDU(ev.frame) || !s.cfg.enabled || id !in s.ports then None
    else match Decode(ev.frame)
         case Some(ConfigMessage(flags, heard, age)) =>
           if Accepts(s.ports[id].info, heard) then Some(ConfigMessage(flags, heard, age)) else None
         case _ => None
  }

  /** What port id holds afterwards, it held before and is older by dt. */
  ghost predicate InfoKept(ports: Ports, ports': Ports, id: string, dt: nat) {
    id in ports' && ports'[id].info.Some? ==>
      id in ports && ports[id].info == ports'[id].info && ports'[id].infoAge == ports[id].infoAge + dt
  }

  lemma PassInfo(pass: Pass, ports: Ports, entries: Entries, id: string)
    requires Linked(ports, entries)
    ensures InfoKept(ports, PassPorts(pass, ports, entries, {}), id, if pass.Age? then pass.dt else 0)
  {
    if id in ports { PassOne(pass, ports, entries, id); }
  }

  lemma ResyncInfo(s: Node, id: string)
    requires RegistryInv(s.sw) && Linked(s.ports, s.sw.entries)
    ensures InfoKept(s.ports, ResyncPorts(s.sw.ports, s.ports, s.sw.entries), id, 0)
  {
    hide RegistryInv, ResyncPorts, ResyncEntries, Linked;
    ResyncMeaning(s.sw, s.ports, id);
  }

  lemma SettledInfo(cfg: StpConfig, u: Snapshot, t: Snapshot, id: string)
    requires Tied(u) && RolesSettled(cfg, u, t)
    ensures InfoKept(u.ports, t.ports, id, 0)
    ensures id in u.ports ==> id in t.ports && t.ports[id].info == u.ports[id].info
                                && t.ports[id].infoAge == u.ports[id].infoAge
  {
    SettledPorts(cfg, u, t);
    PassInfo(Give(t.claim), u.ports, u.entries, id);
    if id in u.ports { PassOne(Give(t.claim), u.ports, u.entries, id); }
  }

  lemma TickInfo(s: Node, dt: nat, mid: Snapshot, t: Node, id: string)
    requires NodeInv(s) && Ticked(s, dt, mid, t)
    ensures InfoKept(s.ports, t.ports, id, dt)
  {
    hide RolesSettled, ResyncPorts, ResyncEntries, PassPorts, PassEntries, Linked, Gated, RegistryInv;
    var r := Resynced(s.sw.ports, s.Snap());
    var u := s.Snap().(ports := AgedPorts(s.sw.ports, s.ports, s.sw.entries, s.cfg.maxAge, dt),
                       entries := ResyncEntries(s.sw.ports, s.ports, s.sw.entries));
    ResyncInfo(s, id);
    ResyncedTied(s);
    PassInfo(Age(s.cfg.maxAge, dt), r.ports, r.entries, id);
    AgedPrepared(s, dt, u);
    AdvancedTied(s, dt, mid);
    if mid != u { SettledInfo(s.cfg, u, mid, id); }
    PassInfo(Climb(s.cfg.forwardDelay, dt), mid.ports, mid.entries, id);
  }

  lemma HeardInfo(cfg: StpConfig, id: string, flags: Byte, heard: Vector, age: nat, s: Snapshot, t: Snapshot, p: string)
    requires id in s.ports && Tied(s) && Heard(cfg, id, flags, heard, age, s, t)
    ensures if p == id && Accepts(s.ports[id].info, heard)
            then p in t.ports && t.ports[p].info == Some(heard) && t.ports[p].infoAge == FromWire(age)
            else InfoKept(s.ports, t.ports, p, 0)
  {
    hide RolesSettled, Linked, Gated, FromWire;
    if Accepts(s.ports[id].info, heard) {
      var stored := s.(ports := Stored(s.ports, id, heard, FromWire(age)));
      var u: Snapshot :| RolesSettled(cfg, stored, u) && t.ports == u.ports;
      StoredPrepared(s, id, heard, FromWire(age));
      SettledInfo(cfg, stored, u, p);
    }
  }

  /** Every event: a stored message is held with its own age, anything else held grows older by the tick. */
  lemma EventInfo(s: Node, ev: Event, t: Node, id: string)
    requires NodeInv(s) && Follows(s, ev, t)
    ensures match Stores(s, ev, id)
            case Some(ConfigMessage(_, heard, age)) =>
              id in t.ports && t.ports[id].info == Some(heard) && t.ports[id].infoAge == FromWire(age)
            case _ => InfoKept(s.ports, t.ports, id, Elapsed(ev))
  {
    hide RolesSettled, Advanced, ClimbedTo, Heard, ResyncPorts, ResyncEntries, DropEntries,
         Linked, Gated, RegistryInv, FromWire;
    match ev
    case Tick(dt) =>
      var mid :| Ticked(s, dt, mid, t);
      TickInfo(s, dt, mid, t, id);
    case Receive(p, frame) =>
      if s.cfg.enabled && p in s.ports && Decode(frame) != None && Decode(frame).value.ConfigMessage? {
        var m := Decode(frame).value;
        HeardInfo(s.cfg, p, m.flags, m.vector, m.age, s.Snap(), t.Snap(), id);
      }
    case Change =>
      if s.cfg.enabled {
        ResyncedTied(s);
        ResyncInfo(s, id);
        SettledInfo(s.cfg, Resynced(s.sw.ports, s.Snap()), t.Snap(), id);
      }
    case Configure(want) =>
      if want.enabled {
        ResyncedTied(s);
        ResyncInfo(s, id);
        SettledInfo(WithDefaults(want), Resynced(s.sw.ports, s.Snap()), t.Snap(), id);
      }
    case Plane(step) =>
  }

  function TimeOf(events: seq<Event>): nat {
    if events == [] then 0 else TimeOf(events[..|events| - 1]) + Elapsed(events[|events| - 1])
  }

  lemma TimeSnoc(events: seq<Event>, ev: Event)
    ensures TimeOf(events + [ev]) == TimeOf(events) + Elapsed(ev)
  {
    assert (events + [ev])[..|events|] == events;
  }

  /** Event i stores the message on port id and no event from there to j stores another. */
  ghost predicate Unrefreshed(events: seq<Event>, states: seq<Node>, i: nat, j: nat, id: string, m: Message)
    requires |states| == |events| + 1 && i < j <= |events|
  {
    Stores(states[i], events[i], id) == Some(m) && forall k | i < k < j :: Stores(states[k], events[k], id) == None
  }

  /** Information that is still held and was not refreshed is as old as it came in plus the time since. */
  lemma {:induction false} InfoAge(events: seq<Event>, states: seq<Node>, i: nat, j: nat, id: string, m: Message)
    requires Run(events, states) && i < j <= |events| && Unrefreshed(events, states, i, j, id, m)
    requires id in states[j].ports && states[j].ports[id].info.Some?
    ensures m.ConfigMessage? && states[j].ports[id].info == Some(m.vector)
    ensures states[j].ports[id].infoAge == FromWire(m.age) + TimeOf(events[i + 1..j])
    decreases j
  {
    hide NodeInv, Follows, FromWire, Run;
    RunStep(events, states, j - 1);
    RunGated(events, states, j - 1);
    EventInfo(states[j - 1], events[j - 1], states[j], id);
    if j == i + 1 {
      assert events[i + 1..j] == [];
    } else {
      InfoAge(events, states, i, j - 1, id, m);
      assert events[i + 1..j] == events[i + 1..j - 1] + [events[j - 1]];
      TimeSnoc(events[i + 1..j - 1], events[j - 1]);
    }
  }

  // ------------------------------------------------------------ what is sent

  /** After a tick everything held is younger than maxAge. */
  lemma TickFresh(s: Node, dt: nat, mid: Snapshot, t: Node)
    requires NodeInv(s) && Ticked(s, dt, mid, t)
    ensures Fresh(t.ports, s.cfg.maxAge)
  {
    hide RolesSettled, ResyncPorts, ResyncEntries, PassPorts, PassEntries, AgedPorts, Linked, Gated, RegistryInv, Fresh;
    var u := s.Snap().(ports := AgedPorts(s.sw.ports, s.ports, s.sw.entries, s.cfg.maxAge, dt),
                       entries := ResyncEntries(s.sw.ports, s.ports, s.sw.entries));
    RefreshKeeps(s.sw, s.ports, s.cfg.maxAge, dt);
    AdvancedTied(s, dt, mid);
    if mid != u {
      SettledPorts(s.cfg, u, mid);
      FreshAfter(Give(mid.claim), u.ports, u.entries, s.cfg.maxAge);
    }
    FreshAfter(Climb(s.cfg.forwardDelay, dt), mid.ports, mid.entries, s.cfg.maxAge);
  }

  /** A hello of the root carries age 0; any other relays the age of its root port's information,
      which is below maxAge. */
  lemma HelloAge(s: Node, dt: nat, t: Node, id: string, flags: Byte)
    requires NodeInv(s) && Follows(s, Tick(dt), t) && id in t.Hello(flags)
    ensures if t.rootPort == "" then t.Hello(flags)[id].age == 0
            else && t.rootPort in t.ports && t.ports[t.rootPort].info.Some?
                 && t.ports[t.rootPort].infoAge < s.cfg.maxAge
                 && t.Hello(flags)[id].age == Relay(t.ports[t.rootPort].infoAge)
  {
    hide Advanced, ClimbedTo, NodeInv, Node.Hello, Relay;
    var mid :| Ticked(s, dt, mid, t);
    TickFresh(s, dt, mid, t);
    HelloFrom(t, id, flags);
  }

  lemma HelloFrom(t: Node, id: string, flags: Byte)
    requires id in t.Hello(flags)
    ensures if t.rootPort == "" then t.Hello(flags)[id].age == 0
            else && t.rootPort in t.ports && t.ports[t.rootPort].info.Some?
                 && t.Hello(flags)[id].age == Relay(t.ports[t.rootPort].infoAge)
  {
    hide Relay;
    assert t.View().Transmits(id).Some?;
    AgeOf(t, id, flags);
  }

  lemma AgeOf(s: Node, id: string, flags: Byte)
    requires id in s.ports && s.ports[id].entry in s.sw.entries
    ensures ConfigOf(s.Claim(), s.cfg, s.ports, s.sw.entries, id, flags).age
            == if s.rootPort == "" || s.rootPort !in s.ports then 0 else Relay(s.ports[s.rootPort].infoAge)
  {}

  /**
   Any message, so also the acknowledgement of a notification, carries the relayed age if and only
   if the root port is still in the tree; once a resync has dropped it, the age is 0.
   */
  lemma MessageAge(s: Node, id: string, flags: Byte)
    requires id in s.ports && s.ports[id].entry in s.sw.entries && s.rootPort != ""
    ensures var age := ConfigOf(s.Claim(), s.cfg, s.ports, s.sw.entries, id, flags).age;
            && (s.rootPort in s.ports ==> age == Relay(s.ports[s.rootPort].infoAge))
            && (s.rootPort !in s.ports ==> age == 0)
            && ((s.rootPort in s.ports ==> s.ports[s.rootPort].infoAge + SECOND < 256 * SECOND) ==>
                  (256 <= age <==> s.rootPort in s.ports))
  {
    AgeOf(s, id, flags);
    if s.rootPort in s.ports && s.ports[s.rootPort].infoAge + SECOND < 256 * SECOND {
      WireUnits(s.ports[s.rootPort].infoAge + SECOND);
      UnitsAdd(256, s.ports[s.rootPort].infoAge);
    }
  }

  /** A tick in which nothing expires keeps the claim, and keeps the root port exactly while that takes part. */
  lemma RootPortDropped(s: Node, dt: nat, t: Node)
    requires NodeInv(s) && Follows(s, Tick(dt), t) && s.rootPort in s.ports
    requires Expires(ResyncPorts(s.sw.ports, s.ports, s.sw.entries), s.cfg.maxAge, dt) == {}
    ensures t.Claim() == s.Claim()
    ensures t.rootPort in t.ports <==> Stays(s.sw.ports, s.ports, s.sw.entries, s.rootPort)
  {
    hide RegistryInv, Linked, Gated, ResyncPorts, ResyncEntries, PassPorts, PassEntries;
    var mid :| Ticked(s, dt, mid, t);
    ResyncMeaning(s.sw, s.ports, s.rootPort);
    var r := Resynced(s.sw.ports, s.Snap());
    PassKeys(Age(s.cfg.maxAge, dt), r.ports, r.entries);
    PassKeys(Climb(s.cfg.forwardDelay, dt), mid.ports, mid.entries);
  }

  /** A tick in which nothing expires can always happen. */
  lemma QuietTick(s: Node, dt: nat) returns (t: Node)
    requires s.cfg.enabled && Expires(ResyncPorts(s.sw.ports, s.ports, s.sw.entries), s.cfg.maxAge, dt) == {}
    ensures Follows(s, Tick(dt), t)
  {
    hide PassPorts, PassEntries, AgedPorts, ResyncPorts, ResyncEntries, Risers, PortsFlushed;
    var mid := s.Snap().(ports := AgedPorts(s.sw.ports, s.ports, s.sw.entries, s.cfg.maxAge, dt),
                         entries := ResyncEntries(s.sw.ports, s.ports, s.sw.entries));
    var climb := Climb(s.cfg.forwardDelay, dt);
    var top := mid.(ports := PassPorts(climb, mid.ports, mid.entries, {}),
                   entries := PassEntries(climb, mid.ports, mid.entries, {}),
                    fdb := PortsFlushed(mid.fdb, Risers(mid.ports, mid.entries, s.cfg.forwardDelay, dt)));
    var due := s.lastHello + dt >= s.cfg.helloTime;
    t := s.With(top).(lastHello := if due then 0 else s.lastHello + dt,
                      tcWhile := if due && mid.tcWhile > 0 then mid.tcWhile - s.cfg.helloTime else mid.tcWhile);
    assert t.Snap().(tcWhile := mid.tcWhile) == top;
    assert Ticked(s, dt, mid, t);
  }

  /** When such a tick drops the root port, a designated port that stays acknowledges with age 0
      for the claim it kept. */
  lemma AcknowledgesYoung(s: Node, dt: nat, t: Node, id: string)
    requires NodeInv(s) && Follows(s, Tick(dt), t) && s.rootPort in s.ports
    requires Expires(ResyncPorts(s.sw.ports, s.ports, s.sw.entries), s.cfg.maxAge, dt) == {}
    requires !Stays(s.sw.ports, s.ports, s.sw.entries, s.rootPort)
    requires Stays(s.sw.ports, s.ports, s.sw.entries, id) && s.ports[id].role == DesignatedRole
    ensures t.Claim() == s.Claim() && id in t.ports && t.ports[id].role == DesignatedRole
    ensures t.ports[id].entry in t.sw.entries
    ensures ConfigOf(t.Claim(), t.cfg, t.ports, t.sw.entries, id, 0x80).age == 0
  {
    RootPortDropped(s, dt, t);
    EventInv(s, Tick(dt), t);
    KeptRole(s, dt, t, id);
    hide RegistryInv, Follows, Gated, ResyncPorts, ResyncEntries;
    AgeOf(t, id, 0x80);
  }

  /** A tick in which nothing expires leaves the roles the resync left. */
  lemma QuietRole(s: Node, dt: nat, t: Node, id: string)
    requires NodeInv(s) && Follows(s, Tick(dt), t) && id in ResyncPorts(s.sw.ports, s.ports, s.sw.entries)
    requires Expires(ResyncPorts(s.sw.ports, s.ports, s.sw.entries), s.cfg.maxAge, dt) == {}
    ensures id in t.ports && t.ports[id].role == ResyncPorts(s.sw.ports, s.ports, s.sw.entries)[id].role
  {
    hide RegistryInv, Gated, ResyncPorts, ResyncEntries, PassPorts, PassEntries;
    var mid :| Ticked(s, dt, mid, t);
    ResyncedTied(s);
    AdvancedTied(s, dt, mid);
    var r := Resynced(s.sw.ports, s.Snap());
    PassOne(Age(s.cfg.maxAge, dt), r.ports, r.entries, id);
    PassKeys(Age(s.cfg.maxAge, dt), r.ports, r.entries);
    PassOne(Climb(s.cfg.forwardDelay, dt), mid.ports, mid.entries, id);
  }

  lemma KeptRole(s: Node, dt: nat, t: Node, id: string)
    requires NodeInv(s) && Follows(s, Tick(dt), t) && Stays(s.sw.ports, s.ports, s.sw.entries, id)
    requires Expires(ResyncPorts(s.sw.ports, s.ports, s.sw.entries), s.cfg.maxAge, dt) == {}
    ensures id in t.ports && t.ports[id].role == s.ports[id].role
  {
    hide RegistryInv, Gated, ResyncPorts, ResyncEntries, Follows;
    ResyncMeaning(s.sw, s.ports, id);
    QuietRole(s, dt, t, id);
  }

  lemma TiedOf(s: Node)
    requires NodeInv(s)
    ensures RegistryInv(s.sw) && Linked(s.ports, s.sw.entries)
  {}

  // ----------------------------------------------------------- relay chains

  /**
   One bridge relaying a claim: event i stores the message on port `from`, nothing refreshes it,
   and event j - 1 is the tick whose hello sends it on out of port `to`.
   */
  datatype Leg = Leg(events: seq<Event>, states: seq<Node>, i: nat, j: nat, from: string, heard: Message,
                     to: string, sent: Config)

  ghost predicate Relays(leg: Leg, maxAge: nat) {
    && Run(leg.events, leg.states) && leg.i < leg.j <= |leg.events|
    && Unrefreshed(leg.events, leg.states, leg.i, leg.j, leg.from, leg.heard) && leg.heard.ConfigMessage?
    && leg.events[leg.j - 1].Tick? && leg.states[leg.j - 1].cfg.maxAge == maxAge
    && leg.states[leg.j].rootPort == leg.from != ""
    && var hello := leg.states[leg.j].Hello(leg.sent.flags);
       leg.to in hello && leg.sent == hello[leg.to]
  }

  /** How long the bridge held the message. */
  function HeldFor(leg: Leg): nat {
    if leg.i < leg.j <= |leg.events| then TimeOf(leg.events[leg.i + 1..leg.j]) else 0
  }

  /** The message sent is the relay of the message heard, held for that long; it was below maxAge. */
  lemma LegAge(leg: Leg, maxAge: nat)
    requires Relays(leg, maxAge)
    ensures leg.heard.ConfigMessage? && FromWire(leg.heard.age) + HeldFor(leg) < maxAge
    ensures leg.sent.age == Relay(FromWire(leg.heard.age) + HeldFor(leg))
  {
    hide NodeInv, Follows, FromWire, Relay, Run, Node.Hello;
    RunStep(leg.events, leg.states, leg.j - 1);
    RunGated(leg.events, leg.states, leg.j - 1);
    HelloAge(leg.states[leg.j - 1], leg.events[leg.j - 1].dt, leg.states[leg.j], leg.to, leg.sent.flags);
    InfoAge(leg.events, leg.states, leg.i, leg.j, leg.from, leg.heard);
  }

  predicate Hands(leg: Leg, next: Leg) { next.heard == ConfigMessage(leg.sent.flags, leg.sent.vector, leg.sent.age) }

  /** The first bridge heard the root itself, every further one what the one before it sent. */
  ghost predicate RelayChain(legs: seq<Leg>, maxAge: nat) {
    && (forall n | 0 <= n < |legs| :: Relays(legs[n], maxAge))
    && (legs != [] ==> legs[0].heard.age == 0)
    && (forall n | 0 < n < |legs| :: Hands(legs[n - 1], legs[n]))
  }

  function HeldTimes(legs: seq<Leg>): (held: seq<nat>)
    ensures |held| == |legs|
  {
    seq(|legs|, n requires 0 <= n < |legs| => HeldFor(legs[n]))
  }

  /** What leg n heard and sent, from the held times. */
  ghost predicate AgesAlong(legs: seq<Leg>, maxAge: nat, held: seq<nat>, n: nat)
    requires n < |legs| == |held|
  {
    && legs[n].heard.ConfigMessage? && legs[n].heard.age == WireAfter(held[..n])
    && legs[n].sent.age == WireAfter(held[..n + 1])
    && FromWire(WireAfter(held[..n])) + held[n] < maxAge
  }

  lemma {:induction false} ChainAge(legs: seq<Leg>, maxAge: nat, n: nat)
    requires RelayChain(legs, maxAge) && n < |legs|
    ensures AgesAlong(legs, maxAge, HeldTimes(legs), n)
  {
    hide Relays, FromWire, Relay, HeldFor;
    var held := HeldTimes(legs);
    assert Relays(legs[n], maxAge);
    if 0 < n {
      ChainAge(legs, maxAge, n - 1);
      assert Hands(legs[n - 1], legs[n]);
    } else {
      assert held[..0] == [];
    }
    LegAge(legs[n], maxAge);
    assert held[..n + 1][..n] == held[..n] && held[..n + 1] != [];
  }

  lemma HopFacts(held: seq<nat>, maxAge: nat, n: nat)
    requires Relayed(held, maxAge) && maxAge + SECOND <= 256 * SECOND && n < |held|
    ensures WireAfter(held[..n + 1]) == 256 * (n + 1) + Units(held[..n + 1])
    ensures WireAfter(held[..n]) + 256 <= WireAfter(held[..n + 1])
    ensures n * SECOND + Units(held[..n]) * TICK + held[n] < maxAge
  {
    hide Relayed, WireAfter, Units;
    RelayedPrefix(held, maxAge, n);
    WireAgeExact(held[..n], maxAge);
    WireAgeExact(held[..n + 1], maxAge);
    HopBound(held, maxAge, n);
  }

  /**
   A claim relayed along a chain of bridges with a common maxAge that leaves room for it: every
   relay raises the wire age by at least a second, at each the seconds of the earlier hops plus
   the time held there stay below maxAge, and so the chain is bounded.
   */
  lemma ClaimDiesOut(legs: seq<Leg>, maxAge: nat)
    requires RelayChain(legs, maxAge) && maxAge + SECOND <= 256 * SECOND
    ensures forall n | 0 <= n < |legs| ::
              && legs[n].sent.age == 256 * (n + 1) + Units(HeldTimes(legs)[..n + 1])
              && n * SECOND + Units(HeldTimes(legs)[..n]) * TICK + HeldTimes(legs)[n] < maxAge
              && legs[n].heard.ConfigMessage? && legs[n].heard.age + 256 <= legs[n].sent.age
    ensures legs != [] ==> (|legs| - 1) * SECOND < maxAge
  {
    hide RelayChain, FromWire, WireAfter, Units, HeldTimes;
    var held := HeldTimes(legs);
    forall n | 0 <= n < |legs|
      ensures AgesAlong(legs, maxAge, held, n)
    {
      ChainAge(legs, maxAge, n);
    }
    assert Relayed(held, maxAge) by {
      forall n | 0 <= n < |held|
        ensures FromWire(WireAfter(held[..n])) + held[n] < maxAge
      {
        assert AgesAlong(legs, maxAge, held, n);
      }
    }
    forall n | 0 <= n < |legs|
      ensures legs[n].sent.age == 256 * (n + 1) + Units(held[..n + 1])
      ensures n * SECOND + Units(held[..n]) * TICK + held[n] < maxAge
      ensures legs[n].heard.ConfigMessage? && legs[n].heard.age + 256 <= legs[n].sent.age
    {
      assert AgesAlong(legs, maxAge, held, n);
      HopFacts(held, maxAge, n);
    }
  }

  lemma RelayedPrefix(held: seq<nat>, maxAge: nat, n: nat)
    requires Relayed(held, maxAge) && n < |held|
    ensures Relayed(held[..n], maxAge) && Relayed(held[..n + 1], maxAge)
    ensures Units(held[..n]) <= Units(held[..n + 1])
  {
    hide FromWire, WireAfter;
    assert forall k | 0 <= k <= n :: held[..n + 1][..k] == held[..k];
    assert forall k | 0 <= k <= n :: held[..n][..k] == held[..k];
  }
}
