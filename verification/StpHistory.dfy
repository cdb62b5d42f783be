/**
 What every event of a bridge does to what its ports heard, to its topology-change state and to the
 learned addresses, and what follows over whole runs: how long information is held, how long a
 change is advertised, and when a notification is pending.
 */
module StpHistory {
  import opened Wrappers
  import opened SwitchPorts
  import opened Frames
  import SwitchModel
  import opened StpVectors
  import opened StpSteps
  import opened StpRuns
  import opened Bpdu

  // ------------------------------------------------------- stored information

  lemma TickHolds(s: Node, dt: nat, mid: Snapshot, t: Node, id: string)
    requires NodeInv(s) && Ticked(s, dt, mid, t) && id in s.ports && id in t.ports
    ensures t.ports[id].info == if s.ports[id].info.Some? && s.ports[id].infoAge + dt >= s.cfg.maxAge then None
                                else s.ports[id].info
  {
    hide RolesSettled, ResyncPorts, ResyncEntries, PassPorts, PassEntries, Linked, Gated, SwitchModel.RegistryInv;
    var r := Resynced(s.sw.ports, s.Snap());
    var u := s.Snap().(ports := AgedPorts(s.sw.ports, s.ports, s.sw.entries, s.cfg.maxAge, dt),
                       entries := ResyncEntries(s.sw.ports, s.ports, s.sw.entries));
    ResyncMeaning(s.sw, s.ports, id);
    ResyncedTied(s);
    AgedPrepared(s, dt, u);
    AdvancedTied(s, dt, mid);
    PassKeys(Age(s.cfg.maxAge, dt), r.ports, r.entries);
    PassKeys(Climb(s.cfg.forwardDelay, dt), mid.ports, mid.entries);
    if mid != u { SettledInfo(s.cfg, u, mid, id); SettledPorts(s.cfg, u, mid); }
    PassOne(Climb(s.cfg.forwardDelay, dt), mid.ports, mid.entries, id);
    PassOne(Age(s.cfg.maxAge, dt), r.ports, r.entries, id);
  }

  lemma ResyncedHolds(cfg: StpConfig, s: Node, t: Snapshot, id: string)
    requires NodeInv(s) && RolesSettled(cfg, Resynced(s.sw.ports, s.Snap()), t) && id in s.ports && id in t.ports
    ensures t.ports[id].info == s.ports[id].info
  {
    hide RolesSettled, ResyncPorts, ResyncEntries, Linked, Gated, SwitchModel.RegistryInv;
    ResyncedTied(s);
    ResyncMeaning(s.sw, s.ports, id);
    SettledInfo(cfg, Resynced(s.sw.ports, s.Snap()), t, id);
    SettledPorts(cfg, Resynced(s.sw.ports, s.Snap()), t);
  }

  lemma HeardHolds(cfg: StpConfig, id: string, flags: Byte, heard: Vector, age: nat,
                   s: Snapshot, t: Snapshot, p: string)
    requires id in s.ports && Tied(s) && Heard(cfg, id, flags, heard, age, s, t) && p in s.ports
    requires p != id || !Accepts(s.ports[id].info, heard)
    ensures p in t.ports && t.ports[p].info == s.ports[p].info
  {
    hide RolesSettled, Linked, Gated, FromWire;
    if Accepts(s.ports[id].info, heard) {
      var stored := s.(ports := Stored(s.ports, id, heard, FromWire(age)));
      var u: Snapshot :| RolesSettled(cfg, stored, u) && t.ports == u.ports;
      StoredPrepared(s, id, heard, FromWire(age));
      SettledInfo(cfg, stored, u, p);
    }
  }

  /** A port that stays keeps what it heard while nothing new is stored on it, until a tick finds it too old. */
  lemma EventHolds(s: Node, ev: Event, t: Node, id: string)
    requires NodeInv(s) && Follows(s, ev, t) && id in s.ports && id in t.ports && Stores(s, ev, id) == None
    ensures t.ports[id].info ==
            if ev.Tick? && s.ports[id].info.Some? && s.ports[id].infoAge + ev.dt >= s.cfg.maxAge then None
            else s.ports[id].info
  {
    hide RolesSettled, Advanced, ClimbedTo, Heard, ResyncPorts, ResyncEntries, DropEntries,
         Linked, Gated, SwitchModel.RegistryInv, FromWire;
    match ev
    case Tick(dt) =>
      var mid :| Ticked(s, dt, mid, t);
      TickHolds(s, dt, mid, t, id);
    case Receive(p, frame) =>
      if s.cfg.enabled && p in s.ports && Decode(frame) != None && Decode(frame).value.ConfigMessage? {
        var m := Decode(frame).value;
        HeardHolds(s.cfg, p, m.flags, m.vector, m.age, s.Snap(), t.Snap(), id);
      }
    case Change => if s.cfg.enabled { ResyncedHolds(s.cfg, s, t.Snap(), id); }
    case Configure(want) => if want.enabled { ResyncedHolds(WithDefaults(want), s, t.Snap(), id); }
    case Plane(step) =>
  }

  /** Port id is in the tree in all states from i + 1 to j, and every tick on the way goes by this maxAge. */
  predicate StaysThrough(events: seq<Event>, states: seq<Node>, i: nat, j: nat, id: string, maxAge: nat)
    requires |states| == |events| + 1 && i < j <= |events|
  {
    && (forall k | i < k <= j :: id in states[k].ports)
    && (forall k | i < k < j && events[k].Tick? :: states[k].cfg.maxAge == maxAge)
  }

  /**
   A message that is stored on a port that stays, and not refreshed, is held exactly until a tick
   finds its age on arrival plus the time since at maxAge or more.
   */
  lemma {:induction false} HeldExactly(events: seq<Event>, states: seq<Node>, i: nat, j: nat, id: string, m: Message,
                                       maxAge: nat)
    requires Run(events, states) && i < j <= |events| && Unrefreshed(events, states, i, j, id, m)
    requires StaysThrough(events, states, i, j, id, maxAge)
    ensures m.ConfigMessage?
    ensures states[j].ports[id].info ==
            if Ticks(events[i + 1..j]) == 0 || FromWire(m.age) + TimeOf(events[i + 1..j]) < maxAge then Some(m.vector)
            else None
    decreases j
  {
    hide NodeInv, Follows, FromWire, Run, Stores, TimeOf;
    RunStep(events, states, j - 1);
    RunGated(events, states, j - 1);
    if j == i + 1 {
      assert events[i + 1..j] == [];
      StoredAtOnce(states[i], events[i], states[j], id, m);
    } else {
      HeldExactly(events, states, i, j - 1, id, m, maxAge);
      if states[j - 1].ports[id].info.Some? { InfoAge(events, states, i, j - 1, id, m); }
      EventHolds(states[j - 1], events[j - 1], states[j], id);
      var before := events[i + 1..j - 1];
      assert events[i + 1..j] == before + [events[j - 1]];
      TimeSnoc(before, events[j - 1]);
      TicksSnoc(before, events[j - 1]);
      NoTicksNoTime(before);
    }
  }

  lemma StoredAtOnce(s: Node, ev: Event, t: Node, id: string, m: Message)
    requires NodeInv(s) && Follows(s, ev, t) && Stores(s, ev, id) == Some(m)
    ensures m.ConfigMessage? && id in t.ports && t.ports[id].info == Some(m.vector)
  {
    hide NodeInv, Follows, FromWire;
    EventInfo(s, ev, t, id);
  }

  lemma {:induction false} NoTicksNoTime(events: seq<Event>)
    ensures Ticks(events) == 0 ==> TimeOf(events) == 0
  {
    if events != [] { NoTicksNoTime(events[..|events| - 1]); }
  }

  // ------------------------------------------------------ when roles are redone

  /** Port id stays in the tree through a resync, and this tick finds what it heard too old. */
  predicate TooOld(s: Node, dt: nat, id: string) {
    && id in s.ports && id in s.sw.ports && s.sw.ports[id] in s.sw.entries && s.ports[id].entry in s.sw.entries
    && s.sw.entries[s.sw.ports[id]].attrs.stp && !s.sw.entries[s.sw.ports[id]].attrs.disabled
    && !s.sw.entries[s.ports[id].entry].gone
    && s.ports[id].info.Some? && s.ports[id].infoAge + dt >= s.cfg.maxAge
  }

  /** The role a port had, new ones counting as blocked. */
  function RoleWas(ports: Ports, id: string): Role { if id in ports then ports[id].role else BlockedRole }

  lemma ExpiresIff(s: Node, dt: nat)
    requires NodeInv(s)
    ensures Expires(ResyncPorts(s.sw.ports, s.ports, s.sw.entries), s.cfg.maxAge, dt) != {} <==>
            exists id :: TooOld(s, dt, id)
  {
    var r := ResyncPorts(s.sw.ports, s.ports, s.sw.entries);
    hide SwitchModel.RegistryInv, Linked, Gated, ResyncPorts, ResyncEntries;
    forall id
      ensures id in Expires(r, s.cfg.maxAge, dt) <==> TooOld(s, dt, id)
    {
      ResyncMeaning(s.sw, s.ports, id);
    }
  }

  /** The climb changes nothing a recompute looks at. */
  lemma ClimbView(c: RootClaim, ports: Ports, entries: Entries, forwardDelay: nat, dt: nat)
    requires Linked(ports, entries)
    ensures var climb := Climb(forwardDelay, dt);
            ViewOf(c, PassPorts(climb, ports, entries, {}), PassEntries(climb, ports, entries, {}))
            == ViewOf(c, ports, entries)
  {
    var climb := Climb(forwardDelay, dt);
    var ps, es := PassPorts(climb, ports, entries, {}), PassEntries(climb, ports, entries, {});
    PassKeys(climb, ports, entries);
    PassOnlyGates(climb, ports, entries);
    hide PassPorts, PassEntries;
    forall id | id in ports
      ensures ps[id].entry == ports[id].entry && ports[id].entry in entries && ps[id].entry in es
      ensures PortViewOf(ps[id], es[ps[id].entry]) == PortViewOf(ports[id], entries[ports[id].entry])
    {
      PassOne(climb, ports, entries, id);
    }
    assert ViewOf(c, ps, es).ports == ViewOf(c, ports, entries).ports;
  }

  /**
   A tick that finds something too old leaves a recomputed bridge; any other keeps the claim, and the
   role of every port, new ones being blocked.
   */
  lemma TickRecomputes(s: Node, dt: nat, t: Node)
    requires NodeInv(s) && Follows(s, Tick(dt), t)
    ensures (exists id :: TooOld(s, dt, id)) ==> t.View().Recomputed()
    ensures !(exists id :: TooOld(s, dt, id)) ==>
              t.Claim() == s.Claim() && forall id | id in t.ports :: t.ports[id].role == RoleWas(s.ports, id)
  {
    ExpiresIff(s, dt);
    hide RolesSettled, ResyncPorts, ResyncEntries, PassPorts, PassEntries, Linked, Gated, SwitchModel.RegistryInv;
    hide TooOld, ViewOf, BridgeView.Recomputed;
    var mid :| Ticked(s, dt, mid, t);
    AdvancedTied(s, dt, mid);
    ClimbView(mid.claim, mid.ports, mid.entries, s.cfg.forwardDelay, dt);
    if exists id :: TooOld(s, dt, id) {
      var u := s.Snap().(ports := AgedPorts(s.sw.ports, s.ports, s.sw.entries, s.cfg.maxAge, dt),
                         entries := ResyncEntries(s.sw.ports, s.ports, s.sw.entries));
      SettledRecomputed(s.cfg, u, mid);
    } else {
      forall id | id in t.ports
        ensures t.ports[id].role == RoleWas(s.ports, id)
      {
        QuietRoles(s, dt, mid, t, id);
      }
    }
  }

  lemma SettledRecomputed(cfg: StpConfig, u: Snapshot, t: Snapshot)
    requires RolesSettled(cfg, u, t)
    ensures ViewOf(t.claim, t.ports, t.entries).Recomputed()
  {}

  lemma QuietRoles(s: Node, dt: nat, mid: Snapshot, t: Node, id: string)
    requires NodeInv(s) && Ticked(s, dt, mid, t) && id in t.ports
    requires Expires(ResyncPorts(s.sw.ports, s.ports, s.sw.entries), s.cfg.maxAge, dt) == {}
    ensures t.ports[id].role == RoleWas(s.ports, id)
  {
    hide RolesSettled, ResyncPorts, ResyncEntries, PassPorts, PassEntries, Linked, Gated, SwitchModel.RegistryInv;
    var r := Resynced(s.sw.ports, s.Snap());
    ResyncedTied(s);
    AdvancedTied(s, dt, mid);
    ResyncMeaning(s.sw, s.ports, id);
    PassKeys(Age(s.cfg.maxAge, dt), r.ports, r.entries);
    PassKeys(Climb(s.cfg.forwardDelay, dt), mid.ports, mid.entries);
    PassOne(Age(s.cfg.maxAge, dt), r.ports, r.entries, id);
    PassOne(Climb(s.cfg.forwardDelay, dt), mid.ports, mid.entries, id);
  }

  /** A vector that replaces what is held: nothing is held, it has the same sender, or it comes first. */
  predicate Replaces(held: Option<Vector>, v: Vector) {
    held.Some? ==>
      var w := held.value;
      || (v.bridgeID == w.bridgeID && v.portID == w.portID)
      || v.rootID < w.rootID
      || (v.rootID == w.rootID && v.cost < w.cost)
      || (v.rootID == w.rootID && v.cost == w.cost && v.bridgeID < w.bridgeID)
      || (v.rootID == w.rootID && v.cost == w.cost && v.bridgeID == w.bridgeID && v.portID < w.portID)
  }

  lemma AcceptsIff(held: Option<Vector>, v: Vector)
    ensures Accepts(held, v) <==> Replaces(held, v)
  {}

  lemma HeardStored(cfg: StpConfig, id: string, flags: Byte, heard: Vector, age: nat, s: Snapshot, t: Snapshot)
    requires id in s.ports && Tied(s) && Heard(cfg, id, flags, heard, age, s, t) && Accepts(s.ports[id].info, heard)
    ensures t.ports.Keys == s.ports.Keys && ViewOf(t.claim, t.ports, t.entries).Recomputed()
    ensures forall p | p in s.ports :: t.ports[p].info == if p == id then Some(heard) else s.ports[p].info
    ensures t.ports[id].infoAge == FromWire(age)
  {
    hide RolesSettled, Linked, Gated, FromWire, ViewOf, BridgeView.Recomputed, Accepts;
    var stored := s.(ports := Stored(s.ports, id, heard, FromWire(age)));
    var u: Snapshot :| RolesSettled(cfg, stored, u)
                       && t.claim == u.claim && t.ports == u.ports && t.entries == u.entries;
    StoredPrepared(s, id, heard, FromWire(age));
    SettledPorts(cfg, stored, u);
    SettledRecomputed(cfg, stored, u);
    forall p | p in s.ports
      ensures p in t.ports && t.ports[p].info == stored.ports[p].info && t.ports[p].infoAge == stored.ports[p].infoAge
    {
      SettledInfo(cfg, stored, u, p);
    }
  }

  /**
   A configuration message on a port of the tree: it is stored with its age and the bridge recomputed
   if it replaces what is held; otherwise ports and claim stay as they are.
   */
  lemma HeardMeaning(s: Node, id: string, frame: Frame, t: Node, flags: Byte, heard: Vector, age: nat)
    requires NodeInv(s) && Follows(s, Receive(id, frame), t) && s.cfg.enabled && id in s.ports
    requires IsBPDU(frame) && Decode(frame) == Some(ConfigMessage(flags, heard, age))
    ensures t.ports.Keys == s.ports.Keys
    ensures forall p | p in s.ports ::
              t.ports[p].info == if p == id && Replaces(s.ports[id].info, heard) then Some(heard) else s.ports[p].info
    ensures if Replaces(s.ports[id].info, heard)
            then t.ports[id].infoAge == FromWire(age) && t.View().Recomputed()
            else t.ports == s.ports && t.Claim() == s.Claim()
  {
    AcceptsIff(s.ports[id].info, heard);
    hide Linked, Gated, FromWire, SwitchModel.RegistryInv, Accepts, Replaces, RolesSettled;
    hide ViewOf, BridgeView.Recomputed;
    if Accepts(s.ports[id].info, heard) { HeardStored(s.cfg, id, flags, heard, age, s.Snap(), t.Snap()); }
  }

  // ------------------------------------------------------------ configuration

  /**
   A configuration takes effect field by field, an absent field as at start-up. Switching the tree
   off empties it and opens every gate, and leaves claim, table and topology-change state alone.
   */
  lemma ConfigMeaning(s: Node, want: StpConfig, t: Node)
    requires NodeInv(s) && Follows(s, Configure(want), t)
    ensures var c := Boot(0, 0, s.mac).cfg;
            && t.cfg.enabled == want.enabled
            && t.cfg.priority == (if want.priority == 0 then c.priority else want.priority)
            && t.cfg.helloTime == (if want.helloTime == 0 then c.helloTime else want.helloTime)
            && t.cfg.maxAge == (if want.maxAge == 0 then c.maxAge else want.maxAge)
            && t.cfg.forwardDelay == (if want.forwardDelay == 0 then c.forwardDelay else want.forwardDelay)
    ensures want.enabled ==> t.View().Recomputed()
    ensures !want.enabled ==>
              && t.ports == map[] && (forall h | h in t.sw.entries :: t.sw.entries[h].stpState == Forwarding)
              && t.rootID == s.rootID && t.rootCost == s.rootCost && t.rootPort == s.rootPort
              && t.sw.table == s.sw.table && t.tcWhile == s.tcWhile && t.tcnPending == s.tcnPending
  {
    hide RolesSettled, ResyncPorts, ResyncEntries, DropEntries, Linked, Gated, SwitchModel.RegistryInv;
    hide ViewOf, BridgeView.Recomputed;
    if want.enabled {
      SettledRecomputed(WithDefaults(want), Resynced(s.sw.ports, s.Snap()), t.Snap());
    } else {
      DropAll(s.ports, s.sw.entries);
    }
  }
}
