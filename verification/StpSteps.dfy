/**
 What the steps of one spanning-tree bridge do, on plain values: passes over the ports,
 enrolment, ageing, the climb to Forwarding, and the whole state before and after each step.
 */
module StpSteps {
  import opened Wrappers
  import opened SwitchPorts
  import opened Fdb
  import opened Frames
  import opened SwitchModel
  import opened StpVectors
  import opened Bpdu

  datatype StpConfig = StpConfig(enabled: bool, priority: nat, helloTime: nat, maxAge: nat, forwardDelay: nat)

  /** A participating port: the entry it drives, its role, what it heard and its timers. */
  datatype StpPort = StpPort(entry: Handle, role: Role, info: Option<Vector>, infoAge: nat, stateTimer: nat)

  /** The gate a port with this role moves to from `cur`. */
  function GateAfter(role: Role, cur: PortState): PortState {
    if role == BlockedRole then Blocking else if cur == Blocking then Listening else cur
  }

  // ------------------------------------------------------------ state changes

  type Ports = map<string, StpPort>
  type Entries = map<Handle, PortEntry>

  /** Port IDs are non-empty and name entries carrying that ID. */
  ghost predicate Linked(ports: Ports, entries: Entries) {
    forall id | id in ports :: id != "" && ports[id].entry in entries && entries[ports[id].entry].id == id
  }

  predicate Enrolled(ports: Ports, entries: Entries, h: Handle) {
    h in entries && entries[h].id in ports && ports[entries[h].id].entry == h
  }

  /** Blocked role and Blocking gate go together; a port outside the tree forwards. */
  ghost predicate Gated(ports: Ports, entries: Entries) {
    && (forall id | id in ports && ports[id].entry in entries ::
          ports[id].role == BlockedRole <==> entries[ports[id].entry].stpState == Blocking)
    && (forall h | h in entries && !Enrolled(ports, entries, h) :: entries[h].stpState == Forwarding)
  }

  /** Nothing but gates differs. */
  ghost predicate OnlyGates(before: Entries, after: Entries) {
    && before.Keys == after.Keys
    && forall h | h in before :: after[h] == before[h].(stpState := after[h].stpState)
  }

  /** What a bridge believes about the root. */
  datatype RootClaim = RootClaim(bridgeID: nat, rootID: nat, rootCost: nat, rootPort: string)

  function PortViewOf(p: StpPort, e: PortEntry): PortView {
    PortView(e.attrs.PathCost(), e.StpPortID(), p.info, p.role)
  }

  function ViewOf(c: RootClaim, ports: Ports, entries: Entries): BridgeView {
    BridgeView(c.bridgeID,
               map i | i in ports && ports[i].entry in entries :: PortViewOf(ports[i], entries[ports[i].entry]),
               c.rootID, c.rootCost, c.rootPort)
  }

  /** The role of one port: root port, winner of its segment, or blocked. */
  function RoleOf(c: RootClaim, id: string, p: StpPort, e: PortEntry): Role {
    if id == c.rootPort then RootRole
    else if p.info.None? || Vector(c.rootID, c.rootCost, c.bridgeID, e.StpPortID()).Better(p.info.value)
    then DesignatedRole else BlockedRole
  }

  /** What giving a port its role does to the port. */
  function WithRole(p: StpPort, role: Role, cur: PortState): StpPort {
    p.(role := role, stateTimer := if cur == Blocking && role != BlockedRole then 0 else p.stateTimer)
  }

  /** Stored information grows older and is dropped at maxAge. */
  function Aged(p: StpPort, maxAge: nat, dt: nat): StpPort {
    if p.info.None? then p
    else if p.infoAge + dt >= maxAge then p.(infoAge := p.infoAge + dt, info := None)
    else p.(infoAge := p.infoAge + dt)
  }

  /** The ports whose information a tick of dt drops. */
  function Expires(ports: Ports, maxAge: nat, dt: nat): set<string> {
    set id | id in ports && ports[id].info.Some? && ports[id].infoAge + dt >= maxAge
  }

  /** Gate and timer after one clock tick of a port that is not blocked. */
  datatype Track = Track(gate: PortState, timer: nat)

  function Climbed(t: Track, forwardDelay: nat, dt: nat): Track {
    if t.gate != Listening && t.gate != Learning then t
    else if t.timer + dt < forwardDelay then t.(timer := t.timer + dt)
    else Track(if t.gate == Listening then Learning else Forwarding, 0)
  }

  /** A pass over all ports: giving roles, ageing information, or the forward-delay climb. */
  datatype Pass = Give(c: RootClaim) | Age(maxAge: nat, dt: nat) | Climb(forwardDelay: nat, dt: nat)

  /** What the pass makes of one port and its gate. */
  function Do(pass: Pass, id: string, p: StpPort, e: PortEntry): (StpPort, PortState) {
    match pass
    case Give(c) => var r := RoleOf(c, id, p, e); (WithRole(p, r, e.stpState), GateAfter(r, e.stpState))
    case Age(maxAge, dt) => (Aged(p, maxAge, dt), e.stpState)
    case Climb(forwardDelay, dt) =>
      if p.role == BlockedRole then (p, e.stpState)
      else var t := Climbed(Track(e.stpState, p.stateTimer), forwardDelay, dt); (p.(stateTimer := t.timer), t.gate)
  }

  /** The ports after the pass has been over all but those in `todo`. */
  function PassPorts(pass: Pass, ports: Ports, entries: Entries, todo: set<string>): Ports {
    map id | id in ports ::
      if id in todo || ports[id].entry !in entries then ports[id]
      else Do(pass, id, ports[id], entries[ports[id].entry]).0
  }

  function PassEntries(pass: Pass, ports: Ports, entries: Entries, todo: set<string>): Entries {
    map h | h in entries ::
      if entries[h].id in todo || !Enrolled(ports, entries, h) then entries[h]
      else entries[h].(stpState := Do(pass, entries[h].id, ports[entries[h].id], entries[h]).1)
  }

  lemma PassStart(pass: Pass, ports: Ports, entries: Entries)
    ensures PassPorts(pass, ports, entries, ports.Keys) == ports
            && PassEntries(pass, ports, entries, ports.Keys) == entries
  {}

  lemma PassPortsStep(pass: Pass, ports: Ports, entries: Entries, todo: set<string>, id: string)
    requires Linked(ports, entries) && todo <= ports.Keys && id in todo
    ensures var ps := PassPorts(pass, ports, entries, todo);
            && ps[id] == ports[id]
            && PassPorts(pass, ports, entries, todo - {id})
                 == ps[id := Do(pass, id, ports[id], entries[ports[id].entry]).0]
  {
    hide Do;
  }

  lemma PassEntriesStep(pass: Pass, ports: Ports, entries: Entries, todo: set<string>, id: string)
    requires Linked(ports, entries) && todo <= ports.Keys && id in todo
    ensures var es := PassEntries(pass, ports, entries, todo); var h := ports[id].entry;
            && es[h] == entries[h]
            && PassEntries(pass, ports, entries, todo - {id})
               == es[h := entries[h].(stpState := Do(pass, id, ports[id], entries[h]).1)]
  {
    hide Do;
    assert Enrolled(ports, entries, ports[id].entry);
  }

  lemma PassStep(pass: Pass, ports: Ports, entries: Entries, todo: set<string>, id: string)
    requires Linked(ports, entries) && todo <= ports.Keys && id in todo
    ensures var ps, es := PassPorts(pass, ports, entries, todo), PassEntries(pass, ports, entries, todo);
            var h, e := ports[id].entry, entries[ports[id].entry]; var d := Do(pass, id, ports[id], e);
            && ps[id] == ports[id] && es[h] == e
            && PassPorts(pass, ports, entries, todo - {id}) == ps[id := d.0]
            && PassEntries(pass, ports, entries, todo - {id}) == es[h := e.(stpState := d.1)]
  {
    hide PassPorts, PassEntries, Do;
    PassPortsStep(pass, ports, entries, todo, id);
    PassEntriesStep(pass, ports, entries, todo, id);
  }

  /** One port stays gated through a pass. */
  lemma DoGated(pass: Pass, id: string, p: StpPort, e: PortEntry)
    requires p.role == BlockedRole <==> e.stpState == Blocking
    ensures var d := Do(pass, id, p, e); d.0.entry == p.entry && (d.0.role == BlockedRole <==> d.1 == Blocking)
  {}

  lemma PassLinked(pass: Pass, ports: Ports, entries: Entries)
    requires Linked(ports, entries) && Gated(ports, entries)
    ensures Linked(PassPorts(pass, ports, entries, {}), PassEntries(pass, ports, entries, {}))
    ensures forall h | h in entries ::
              Enrolled(PassPorts(pass, ports, entries, {}), PassEntries(pass, ports, entries, {}), h)
              == Enrolled(ports, entries, h)
  {
    forall id | id in ports
      ensures PassPorts(pass, ports, entries, {})[id].entry == ports[id].entry
    {
      DoGated(pass, id, ports[id], entries[ports[id].entry]);
    }
  }

  /** All ports stay gated through a pass. */
  lemma PassGated(pass: Pass, ports: Ports, entries: Entries)
    requires Linked(ports, entries) && Gated(ports, entries)
    ensures Linked(PassPorts(pass, ports, entries, {}), PassEntries(pass, ports, entries, {}))
    ensures Gated(PassPorts(pass, ports, entries, {}), PassEntries(pass, ports, entries, {}))
  {
    PassLinked(pass, ports, entries);
    forall id | id in ports
      ensures (PassPorts(pass, ports, entries, {})[id].role == BlockedRole) ==
              (PassEntries(pass, ports, entries, {})[ports[id].entry].stpState == Blocking)
      ensures PassPorts(pass, ports, entries, {})[id].entry == ports[id].entry
    {
      assert Enrolled(ports, entries, ports[id].entry);
      DoGated(pass, id, ports[id], entries[ports[id].entry]);
    }
  }

  lemma GivenView(c: RootClaim, ports: Ports, entries: Entries, p: string)
    requires Linked(ports, entries) && p in ports
    ensures var v := ViewOf(c, ports, entries);
            var w := ViewOf(c, PassPorts(Give(c), ports, entries, {}), PassEntries(Give(c), ports, entries, {}));
            p in v.ports && p in w.ports && w.ports[p] == v.ports[p].(role := v.RoleFor(p))
  {
    var ps, es := PassPorts(Give(c), ports, entries, {}), PassEntries(Give(c), ports, entries, {});
    var h := ports[p].entry;
    assert ps[p].info == ports[p].info && ps[p].entry == h;
    assert es[h].attrs == entries[h].attrs && es[h].portNum == entries[h].portNum;
  }

  /** An elected claim whose roles have been given is a recomputed bridge. */
  lemma GivenRecomputed(c: RootClaim, ports: Ports, entries: Entries)
    requires Linked(ports, entries) && ViewOf(c, ports, entries).Elected()
    ensures ViewOf(c, PassPorts(Give(c), ports, entries, {}), PassEntries(Give(c), ports, entries, {})).Recomputed()
  {
    var v := ViewOf(c, ports, entries);
    var w := ViewOf(c, PassPorts(Give(c), ports, entries, {}), PassEntries(Give(c), ports, entries, {}));
    forall p | p in ports
      ensures p in v.ports && p in w.ports && w.ports[p] == v.ports[p].(role := v.RoleFor(p))
    {
      GivenView(c, ports, entries, p);
    }
    assert w.ports.Keys == v.ports.Keys;
    RolesAside(v, w);
  }

  /** The claim gives port id a role other than the one it has. */
  predicate Moves(c: RootClaim, ports: Ports, entries: Entries, id: string) {
    && id in ports && ports[id].entry in entries
    && RoleOf(c, id, ports[id], entries[ports[id].entry]) != ports[id].role
  }

  /** The ports whose role the claim changes. */
  function Movers(c: RootClaim, ports: Ports, entries: Entries): set<string> {
    set id | id in ports && Moves(c, ports, entries, id)
  }

  /** The switch keeps its registry when only gates change. */
  lemma GatesAside(s: Switch, entries': Entries, m': Table)
    requires RegistryInv(s) && OnlyGates(s.entries, entries')
    ensures RegistryInv(s.(entries := entries', table := m'))
  {
    SameRegistryInv(s, s.(entries := entries', table := m'));
  }

  lemma PassOnlyGates(pass: Pass, ports: Ports, entries: Entries)
    ensures OnlyGates(entries, PassEntries(pass, ports, entries, {}))
  {}

  /** Gate and timer of a port. */
  function TrackOf(ports: Ports, entries: Entries, id: string): Track
    requires id in ports && ports[id].entry in entries
  {
    Track(entries[ports[id].entry].stpState, ports[id].stateTimer)
  }

  /** Roles given from an elected claim leave a gated, recomputed bridge and the registry as it was. */
  lemma GivenAll(c: RootClaim, s: Switch, ports: Ports, m': Table)
    requires RegistryInv(s) && Linked(ports, s.entries) && Gated(ports, s.entries)
             && ViewOf(c, ports, s.entries).Elected()
    ensures var ps, es := PassPorts(Give(c), ports, s.entries, {}), PassEntries(Give(c), ports, s.entries, {});
            && Linked(ps, es) && Gated(ps, es) && RegistryInv(s.(entries := es, table := m'))
            && ViewOf(c, ps, es).Recomputed()
  {
    GivenRecomputed(c, ports, s.entries);
    PassGated(Give(c), ports, s.entries);
    PassOnlyGates(Give(c), ports, s.entries);
    GatesAside(s, PassEntries(Give(c), ports, s.entries, {}), m');
  }

  // ------------------------------------------------------------- enrolment

  /** Port id of the registry takes part in the tree. */
  predicate Takes(registry: map<string, Handle>, entries: Entries, id: string) {
    && id in registry && registry[id] in entries
    && entries[registry[id]].attrs.stp && !entries[registry[id]].attrs.disabled
  }

  /** The tree's ports after enrolling the participating registry ports outside `todo`. */
  function EnrolPorts(registry: map<string, Handle>, ports: Ports, entries: Entries, todo: set<string>): Ports {
    map id | id in ports.Keys + registry.Keys && (id in ports || (id !in todo && Takes(registry, entries, id))) ::
      if id in ports then ports[id] else StpPort(registry[id], BlockedRole, None, 0, 0)
  }

  function EnrolEntries(registry: map<string, Handle>, ports: Ports, entries: Entries, todo: set<string>): Entries {
    map h | h in entries ::
      var id := entries[h].id;
      if id !in todo && id !in ports && Takes(registry, entries, id) && registry[id] == h
      then entries[h].(stpState := Blocking) else entries[h]
  }

  /** An enrolled port stays while its registry port takes part and its own entry is not gone. */
  predicate Stays(registry: map<string, Handle>, ports: Ports, entries: Entries, id: string) {
    id in ports && Takes(registry, entries, id) && ports[id].entry in entries && !entries[ports[id].entry].gone
  }

  function DropPorts(registry: map<string, Handle>, ports: Ports, entries: Entries, todo: set<string>): Ports {
    map id | id in ports && (id in todo || Stays(registry, ports, entries, id)) :: ports[id]
  }

  function DropEntries(registry: map<string, Handle>, ports: Ports, entries: Entries, todo: set<string>): Entries {
    map h | h in entries ::
      var id := entries[h].id;
      if Enrolled(ports, entries, h) && id !in todo && !Stays(registry, ports, entries, id)
      then entries[h].(stpState := Forwarding) else entries[h]
  }

  lemma EnrolPortsStep(registry: map<string, Handle>, ports: Ports, entries: Entries, todo: set<string>, id: string)
    requires todo <= registry.Keys && id in todo
    ensures var ps := EnrolPorts(registry, ports, entries, todo);
            && (id in ps <==> id in ports)
            && EnrolPorts(registry, ports, entries, todo - {id})
               == if id !in ports && Takes(registry, entries, id)
                  then ps[id := StpPort(registry[id], BlockedRole, None, 0, 0)] else ps
  {}

  lemma EnrolEntriesStep(registry: map<string, Handle>, ports: Ports, entries: Entries, todo: set<string>, id: string)
    requires todo <= registry.Keys && id in todo && registry[id] in entries && entries[registry[id]].id == id
    ensures var es := EnrolEntries(registry, ports, entries, todo); var h := registry[id];
            && es[h] == entries[h] && Takes(registry, es, id) == Takes(registry, entries, id)
            && EnrolEntries(registry, ports, entries, todo - {id})
               == if id !in ports && Takes(registry, entries, id) then es[h := es[h].(stpState := Blocking)] else es
  {}

  lemma DropStep(registry: map<string, Handle>, ports: Ports, entries: Entries, todo: set<string>, id: string)
    requires Linked(ports, entries) && todo <= ports.Keys && id in todo
    ensures var ps, es := DropPorts(registry, ports, entries, todo), DropEntries(registry, ports, entries, todo);
            var h := ports[id].entry;
            && id in ps && ps[id] == ports[id] && es[h] == entries[h]
            && Stays(registry, ps, es, id) == Stays(registry, ports, entries, id)
            && var drop := !Stays(registry, ports, entries, id);
               && DropPorts(registry, ports, entries, todo - {id}) == (if drop then ps - {id} else ps)
               && DropEntries(registry, ports, entries, todo - {id})
                  == (if drop then es[h := es[h].(stpState := Forwarding)] else es)
  {}

  /** Dropping every port leaves every gate open and changes nothing else. */
  lemma DropAll(ports: Ports, entries: Entries)
    requires Linked(ports, entries) && Gated(ports, entries)
    ensures var es := DropEntries(map[], ports, entries, {});
            OnlyGates(entries, es) && forall h | h in es :: es[h].stpState == Forwarding
  {}

  /** Ports and gates after a resync: enrol, then drop. */
  function ResyncPorts(registry: map<string, Handle>, ports: Ports, entries: Entries): Ports {
    DropPorts(registry, EnrolPorts(registry, ports, entries, {}), EnrolEntries(registry, ports, entries, {}), {})
  }

  function ResyncEntries(registry: map<string, Handle>, ports: Ports, entries: Entries): Entries {
    DropEntries(registry, EnrolPorts(registry, ports, entries, {}), EnrolEntries(registry, ports, entries, {}), {})
  }

  /** One enrolled port is linked and gated. */
  ghost predicate GatedPort(ports: Ports, entries: Entries, id: string) {
    && id in ports && id != "" && ports[id].entry in entries && entries[ports[id].entry].id == id
    && (ports[id].role == BlockedRole <==> entries[ports[id].entry].stpState == Blocking)
  }

  lemma GatedByParts(ports: Ports, entries: Entries)
    requires forall id | id in ports :: GatedPort(ports, entries, id)
    requires forall h | h in entries && !Enrolled(ports, entries, h) :: entries[h].stpState == Forwarding
    ensures Linked(ports, entries) && Gated(ports, entries)
  {}

  lemma EnrolKeeps(s: Switch, ports: Ports)
    requires RegistryInv(s) && Linked(ports, s.entries) && Gated(ports, s.entries)
    ensures var ps, es := EnrolPorts(s.ports, ports, s.entries, {}), EnrolEntries(s.ports, ports, s.entries, {});
            Linked(ps, es) && Gated(ps, es) && RegistryInv(s.(entries := es))
  {
    var ps, es := EnrolPorts(s.ports, ports, s.entries, {}), EnrolEntries(s.ports, ports, s.entries, {});
    forall id | id in ps ensures GatedPort(ps, es, id) { EnrolPort(s, ports, id); }
    forall h | h in es && !Enrolled(ps, es, h)
      ensures es[h].stpState == Forwarding
    {
      EnrolEntry(s, ports, h);
    }
    GatedByParts(ps, es);
    GatesAside(s, es, s.table);
  }

  lemma EnrolPort(s: Switch, ports: Ports, id: string)
    requires RegistryInv(s) && Linked(ports, s.entries) && Gated(ports, s.entries)
    requires id in EnrolPorts(s.ports, ports, s.entries, {})
    ensures GatedPort(EnrolPorts(s.ports, ports, s.entries, {}), EnrolEntries(s.ports, ports, s.entries, {}), id)
  {
    var h := EnrolPorts(s.ports, ports, s.entries, {})[id].entry;
    assert h in s.entries && s.entries[h].id == id;
  }

  lemma EnrolEntry(s: Switch, ports: Ports, h: Handle)
    requires RegistryInv(s) && Linked(ports, s.entries) && Gated(ports, s.entries) && h in s.entries
    requires !Enrolled(EnrolPorts(s.ports, ports, s.entries, {}), EnrolEntries(s.ports, ports, s.entries, {}), h)
    ensures EnrolEntries(s.ports, ports, s.entries, {})[h].stpState == Forwarding
  {
    assert !Enrolled(ports, s.entries, h);
  }

  lemma DropKeeps(s: Switch, ports: Ports)
    requires RegistryInv(s) && Linked(ports, s.entries) && Gated(ports, s.entries)
    ensures var ps, es := DropPorts(s.ports, ports, s.entries, {}), DropEntries(s.ports, ports, s.entries, {});
            Linked(ps, es) && Gated(ps, es) && RegistryInv(s.(entries := es))
  {
    var ps, es := DropPorts(s.ports, ports, s.entries, {}), DropEntries(s.ports, ports, s.entries, {});
    forall id | id in ps ensures GatedPort(ps, es, id) { DropPort(s, ports, id); }
    forall h | h in es && !Enrolled(ps, es, h)
      ensures es[h].stpState == Forwarding
    {
      DropEntry(s, ports, h);
    }
    GatedByParts(ps, es);
    GatesAside(s, es, s.table);
  }

  lemma DropPort(s: Switch, ports: Ports, id: string)
    requires Linked(ports, s.entries) && Gated(ports, s.entries)
    requires id in DropPorts(s.ports, ports, s.entries, {})
    ensures GatedPort(DropPorts(s.ports, ports, s.entries, {}), DropEntries(s.ports, ports, s.entries, {}), id)
  {}

  lemma DropEntry(s: Switch, ports: Ports, h: Handle)
    requires Linked(ports, s.entries) && Gated(ports, s.entries) && h in s.entries
    requires !Enrolled(DropPorts(s.ports, ports, s.entries, {}), DropEntries(s.ports, ports, s.entries, {}), h)
    ensures DropEntries(s.ports, ports, s.entries, {})[h].stpState == Forwarding
  {}

  /**
   After a resync: a new participating port is enrolled blocked; an enrolled one
   stays untouched exactly while it takes part and its own entry is not gone. A
   port whose ID was reused is dropped first and enrolled at the next resync.
   */
  lemma ResyncMeaning(s: Switch, ports: Ports, id: string)
    requires RegistryInv(s) && Linked(ports, s.entries)
    ensures var ps, es := ResyncPorts(s.ports, ports, s.entries), ResyncEntries(s.ports, ports, s.entries);
            && es.Keys == s.entries.Keys
            && (id in ps <==> if id in ports then Stays(s.ports, ports, s.entries, id)
                          else Takes(s.ports, s.entries, id))
            && (id in ps ==> ps[id] == if id in ports then ports[id] else StpPort(s.ports[id], BlockedRole, None, 0, 0))
            && (id in ps && id in ports ==> es[ports[id].entry] == s.entries[ports[id].entry])
  {
    EnrolMeaning(s, ports, id);
    DropMeaning(s.ports, EnrolPorts(s.ports, ports, s.entries, {}), EnrolEntries(s.ports, ports, s.entries, {}), id);
    hide EnrolPorts, EnrolEntries, DropPorts, DropEntries, RegistryInv, Linked;
  }

  lemma EnrolMeaning(s: Switch, ports: Ports, id: string)
    requires RegistryInv(s) && Linked(ports, s.entries)
    ensures var ps, es := EnrolPorts(s.ports, ports, s.entries, {}), EnrolEntries(s.ports, ports, s.entries, {});
            && es.Keys == s.entries.Keys && Takes(s.ports, es, id) == Takes(s.ports, s.entries, id)
            && (id in ps <==> id in ports || Takes(s.ports, s.entries, id))
            && (id in ps ==> ps[id] == if id in ports then ports[id] else StpPort(s.ports[id], BlockedRole, None, 0, 0))
            && (id in ps ==> ps[id].entry in es && es[ps[id].entry].gone == s.entries[ps[id].entry].gone)
            && (id in ps ==> es[ps[id].entry].id == id)
            && (id in ports ==> es[ports[id].entry] == s.entries[ports[id].entry])
            && (id in ps && id !in ports ==> !es[ps[id].entry].gone)
  {}

  lemma DropMeaning(registry: map<string, Handle>, ports: Ports, entries: Entries, id: string)
    requires id in ports ==> ports[id].entry in entries && entries[ports[id].entry].id == id
    ensures var ps, es := DropPorts(registry, ports, entries, {}), DropEntries(registry, ports, entries, {});
            && es.Keys == entries.Keys
            && (id in ps <==> Stays(registry, ports, entries, id))
            && (id in ps ==> ps[id] == ports[id] && es[ports[id].entry] == entries[ports[id].entry])
  {}

  /** Ageing moves no gate. */
  lemma AgeGated(maxAge: nat, dt: nat, ports: Ports, entries: Entries)
    requires Linked(ports, entries) && Gated(ports, entries)
    ensures PassEntries(Age(maxAge, dt), ports, entries, {}) == entries
    ensures Linked(PassPorts(Age(maxAge, dt), ports, entries, {}), entries)
    ensures Gated(PassPorts(Age(maxAge, dt), ports, entries, {}), entries)
  {
    var es := PassEntries(Age(maxAge, dt), ports, entries, {});
    assert forall h | h in entries :: es[h] == entries[h];
    assert es == entries;
    PassGated(Age(maxAge, dt), ports, entries);
  }

  /** Everything a port still holds is younger than maxAge. */
  ghost predicate Fresh(ports: Ports, maxAge: nat) {
    forall id | id in ports && ports[id].info.Some? :: ports[id].infoAge < maxAge
  }

  lemma FreshAfter(pass: Pass, ports: Ports, entries: Entries, maxAge: nat)
    requires Linked(ports, entries)
    requires if pass.Age? then pass.maxAge == maxAge else Fresh(ports, maxAge)
    ensures Fresh(PassPorts(pass, ports, entries, {}), maxAge)
  {}

  lemma ResyncKeeps(s: Switch, ports: Ports)
    requires RegistryInv(s) && Linked(ports, s.entries) && Gated(ports, s.entries)
    ensures var ps, es := ResyncPorts(s.ports, ports, s.entries), ResyncEntries(s.ports, ports, s.entries);
            Linked(ps, es) && Gated(ps, es) && RegistryInv(s.(entries := es))
  {
    var qs, fs := EnrolPorts(s.ports, ports, s.entries, {}), EnrolEntries(s.ports, ports, s.entries, {});
    EnrolKeeps(s, ports);
    DropKeeps(s.(entries := fs), qs);
  }

  /** Ports and gates once a tick has resynced and aged, before any recompute. */
  function AgedPorts(registry: map<string, Handle>, ports: Ports, entries: Entries, maxAge: nat, dt: nat): Ports {
    PassPorts(Age(maxAge, dt), ResyncPorts(registry, ports, entries), ResyncEntries(registry, ports, entries), {})
  }

  lemma RefreshKeeps(s: Switch, ports: Ports, maxAge: nat, dt: nat)
    requires RegistryInv(s) && Linked(ports, s.entries) && Gated(ports, s.entries)
    ensures var ps, es := AgedPorts(s.ports, ports, s.entries, maxAge, dt), ResyncEntries(s.ports, ports, s.entries);
            Linked(ps, es) && Gated(ps, es) && Fresh(ps, maxAge) && RegistryInv(s.(entries := es))
  {
    ResyncKeeps(s, ports);
    var p1, e1 := ResyncPorts(s.ports, ports, s.entries), ResyncEntries(s.ports, ports, s.entries);
    AgeGated(maxAge, dt, p1, e1);
    FreshAfter(Age(maxAge, dt), p1, e1, maxAge);
  }

  function Stored(ports: Ports, id: string, heard: Vector, age: nat): Ports
    requires id in ports
  {
    ports[id := ports[id].(info := Some(heard), infoAge := age)]
  }

  lemma StoreKeeps(ports: Ports, entries: Entries, id: string, heard: Vector, age: nat)
    requires Linked(ports, entries) && Gated(ports, entries) && id in ports
    ensures Linked(Stored(ports, id, heard, age), entries) && Gated(Stored(ports, id, heard, age), entries)
  {
    assert forall h | h in entries ::
             Enrolled(Stored(ports, id, heard, age), entries, h) == Enrolled(ports, entries, h);
  }

  lemma MacFits(mac: MAC)
    ensures FromBE(mac) < 0x1_0000_0000_0000
  {
    BEFits(mac[..3]);
    assert FromBE(mac[..4]) == FromBE(mac[..3]) * 256 + mac[3] by { assert mac[..4][..3] == mac[..3]; }
    assert FromBE(mac[..5]) == FromBE(mac[..4]) * 256 + mac[4] by { assert mac[..5][..4] == mac[..4]; }
    assert mac[..5] == mac[..|mac| - 1];
  }

  lemma BEFits(b: seq<Byte>)
    requires |b| == 3
    ensures FromBE(b) < 0x100_0000
  {
    assert FromBE(b[..1]) == FromBE(b[..1][..0]) * 256 + b[0];
    assert FromBE(b[..2]) == FromBE(b[..1]) * 256 + b[1] by { assert b[..2][..1] == b[..1]; }
  }

  lemma EnrolledEntry(ports: Ports, entries: Entries, id: string)
    requires Linked(ports, entries) && id in ports
    ensures ports[id].entry in entries
  {}

  function WithDefaults(c: StpConfig): StpConfig {
    c.(priority := if c.priority == 0 then 32768 else c.priority,
       helloTime := if c.helloTime == 0 then 2 * SECOND else c.helloTime,
       maxAge := if c.maxAge == 0 then 20 * SECOND else c.maxAge,
       forwardDelay := if c.forwardDelay == 0 then 15 * SECOND else c.forwardDelay)
  }

  lemma ClearingTwice(m: Table)
    ensures DynamicCleared(DynamicCleared(m)) == DynamicCleared(m)
  {}

  function DynamicCleared(m: Table): Table { Flushed(m, "", None) }

  lemma ClearingAbsorbsFlush(m: Table, id: string)
    ensures DynamicCleared(PortFlushed(m, id)) == DynamicCleared(m)
  {}

  // --------------------------------------------------- what the methods do

  /** What a bridge's methods change: its beliefs, its ports, their gates, the table and the topology-change state. */
  datatype Snapshot = Snapshot(claim: RootClaim, ports: Ports, entries: Entries, fdb: Table,
                               tcWhile: int, tcnPending: bool)

  /** A topology change: the root advertises it for maxAge plus forwardDelay, others ask for it;
      addresses are forgotten. */
  function Signalled(cfg: StpConfig, s: Snapshot): Snapshot {
    var t := s.(fdb := DynamicCleared(s.fdb));
    if s.claim.rootPort == "" then t.(tcWhile := cfg.maxAge + cfg.forwardDelay) else t.(tcnPending := true)
  }

  /** t is s once an elected claim has given the ports their roles; a role that moved is a topology change. */
  ghost predicate RolesSettled(cfg: StpConfig, s: Snapshot, t: Snapshot) {
    var given := s.(claim := t.claim, ports := PassPorts(Give(t.claim), s.ports, s.entries, {}),
                    entries := PassEntries(Give(t.claim), s.ports, s.entries, {}));
    && ViewOf(t.claim, t.ports, t.entries).Recomputed()
    && t == if Movers(t.claim, s.ports, s.entries) == {} then given else Signalled(cfg, given)
  }

  /** What a recompute does to the rest does not depend on the claim it starts from. */
  lemma ClaimAside(cfg: StpConfig, s: Snapshot, c: RootClaim, t: Snapshot)
    requires RolesSettled(cfg, s, t)
    ensures RolesSettled(cfg, s.(claim := c), t)
  {
    hide PassPorts, PassEntries, Movers, ViewOf;
  }

  lemma NoPortsGated(entries: Entries)
    requires forall h | h in entries :: entries[h].stpState == Forwarding
    ensures Linked(map[], entries) && Gated(map[], entries)
  {}

  /** s once its ports are aligned with the participating ports of the switch. */
  function Resynced(registry: map<string, Handle>, s: Snapshot): Snapshot {
    s.(ports := ResyncPorts(registry, s.ports, s.entries), entries := ResyncEntries(registry, s.ports, s.entries))
  }

  /** t is s after a tick's resync and ageing, and the recompute if something expired. */
  ghost predicate Advanced(cfg: StpConfig, registry: map<string, Handle>, dt: nat, s: Snapshot, t: Snapshot) {
    var u := s.(ports := AgedPorts(registry, s.ports, s.entries, cfg.maxAge, dt),
                entries := ResyncEntries(registry, s.ports, s.entries));
    if Expires(ResyncPorts(registry, s.ports, s.entries), cfg.maxAge, dt) == {} then t == u else RolesSettled(cfg, u, t)
  }

  /** The ports that reach Forwarding in the climb. */
  function Risers(ports: Ports, entries: Entries, forwardDelay: nat, dt: nat): set<string> {
    set id | id in ports && Rises(ports, entries, forwardDelay, dt, id)
  }

  predicate Rises(ports: Ports, entries: Entries, forwardDelay: nat, dt: nat, id: string) {
    && id in ports && ports[id].entry in entries && ports[id].role != BlockedRole
    && entries[ports[id].entry].stpState == Learning && forwardDelay <= ports[id].stateTimer + dt
  }

  function PortsFlushed(m: Table, ids: set<string>): Table {
    map k | k in m && (m[k].fixed || m[k].portID !in ids) :: m[k]
  }

  lemma FlushOneMore(m: Table, ids: set<string>, id: string)
    ensures PortFlushed(PortsFlushed(m, ids), id) == PortsFlushed(m, ids + {id})
    ensures PortsFlushed(m, {}) == m
  {}

  /** t is s after the forward-delay climb; a port that reaches Forwarding loses its learned addresses. */
  ghost predicate ClimbedTo(cfg: StpConfig, dt: nat, s: Snapshot, t: Snapshot) {
    var climb := Climb(cfg.forwardDelay, dt);
    t == s.(ports := PassPorts(climb, s.ports, s.entries, {}), entries := PassEntries(climb, s.ports, s.entries, {}),
            fdb := PortsFlushed(s.fdb, Risers(s.ports, s.entries, cfg.forwardDelay, dt)))
  }

  /** t is s after a configuration message on port id: stored and recomputed if accepted, then its flags. */
  ghost predicate Heard(cfg: StpConfig, id: string, flags: Byte, heard: Vector, age: nat, s: Snapshot, t: Snapshot)
    requires id in s.ports
  {
    exists u: Snapshot ::
      && (if Accepts(s.ports[id].info, heard)
          then RolesSettled(cfg, s.(ports := Stored(s.ports, id, heard, FromWire(age))), u) else u == s)
      && t == u.(fdb := if flags % 2 == 1 then DynamicCleared(u.fdb) else u.fdb,
                 tcnPending := u.tcnPending && !(flags >= 0x80 && id == u.claim.rootPort))
  }

  /** The configuration BPDU for one port, with the age of the root information plus one second. */
  function ConfigOf(c: RootClaim, cfg: StpConfig, ports: Ports, entries: Entries, id: string, flags: Byte): Config
    requires id in ports && ports[id].entry in entries
  {
    var age := if c.rootPort != "" && c.rootPort in ports then ports[c.rootPort].infoAge + SECOND else 0;
    Config(flags, Vector(c.rootID, c.rootCost, c.bridgeID, entries[ports[id].entry].StpPortID()),
           Wire(age), Wire(cfg.maxAge), Wire(cfg.helloTime), Wire(cfg.forwardDelay))
  }

  // ------------------------------------------------------- bridge and switch

  /** A bridge together with the switch it drives. */
  datatype Node = Node(sw: Switch, mac: MAC, cfg: StpConfig, rootID: nat, rootCost: nat, rootPort: string,
                       ports: Ports, tcWhile: int, tcnPending: bool, lastHello: nat)
  {
    function BridgeID(): nat { cfg.priority * 0x1_0000_0000_0000 + FromBE(mac) }

    function Claim(): RootClaim { RootClaim(BridgeID(), rootID, rootCost, rootPort) }

    function Snap(): Snapshot { Snapshot(Claim(), ports, sw.entries, sw.table, tcWhile, tcnPending) }

    function View(): BridgeView { ViewOf(Claim(), ports, sw.entries) }

    /** This node once the bridge has left the given snapshot. */
    function With(t: Snapshot): Node {
      this.(sw := sw.(entries := t.entries, table := t.fdb), ports := t.ports, tcWhile := t.tcWhile,
            tcnPending := t.tcnPending, rootID := t.claim.rootID,
            rootCost := t.claim.rootCost, rootPort := t.claim.rootPort)
    }

    /** What a hello sends: one message out of every designated port, while the root information is fresh. */
    function Hello(flags: Byte): map<string, Config> {
      map id | id in ports && ports[id].entry in sw.entries && View().Transmits(id).Some? ::
        ConfigOf(Claim(), cfg, ports, sw.entries, id, flags)
    }
  }

  /** A hello depends on beliefs, ports and entries only. */
  lemma HelloAside(s: Node, t: Node, flags: Byte)
    requires t.Claim() == s.Claim() && t.cfg == s.cfg && t.ports == s.ports && t.sw.entries == s.sw.entries
    ensures t.Hello(flags) == s.Hello(flags)
  {}

  /** Messages for the designated ports of a bridge that is root or has fresh root information are its hello. */
  lemma HelloIs(n: Node, flags: Byte, sent: map<string, Config>)
    requires Linked(n.ports, n.sw.entries)
    requires forall id :: id in sent <==>
               && id in n.ports && n.ports[id].role == DesignatedRole
               && (n.rootPort == "" || (n.rootPort in n.ports && n.ports[n.rootPort].info != None))
    requires forall id | id in sent :: sent[id] == ConfigOf(n.Claim(), n.cfg, n.ports, n.sw.entries, id, flags)
    ensures sent == n.Hello(flags)
    ensures forall id :: id in sent <==> id in n.ports && n.View().Transmits(id).Some?
    ensures forall id | id in sent :: n.View().Transmits(id) == Some(sent[id].vector)
  {
    hide ConfigOf;
    assert forall id | id in n.ports :: id in n.View().ports && n.View().ports[id].role == n.ports[id].role;
    assert n.Hello(flags).Keys == sent.Keys;
    forall id | id in sent
      ensures n.View().Transmits(id) == Some(sent[id].vector)
    {
      ConfigVector(n, flags, id);
    }
  }

  /** What a message says beside its age. */
  lemma ConfigVector(n: Node, flags: Byte, id: string)
    requires id in n.ports && n.ports[id].entry in n.sw.entries
    ensures var m := ConfigOf(n.Claim(), n.cfg, n.ports, n.sw.entries, id, flags);
            && m.flags == flags && m.vector == n.View().Advert(id)
            && m.maxAge == Wire(n.cfg.maxAge) && m.hello == Wire(n.cfg.helloTime)
            && m.forwardDelay == Wire(n.cfg.forwardDelay)
  {}

  /** t is s after a tick of dt; `mid` is the state between ageing and climb. */
  ghost predicate Ticked(s: Node, dt: nat, mid: Snapshot, t: Node) {
    && t == s.With(t.Snap()).(lastHello := t.lastHello)
    && Advanced(s.cfg, s.sw.ports, dt, s.Snap(), mid)
    && ClimbedTo(s.cfg, dt, mid, t.Snap().(tcWhile := mid.tcWhile))
    && if s.lastHello + dt < s.cfg.helloTime then t.lastHello == s.lastHello + dt && t.tcWhile == mid.tcWhile
       else t.lastHello == 0 && t.tcWhile == if mid.tcWhile > 0 then mid.tcWhile - s.cfg.helloTime else mid.tcWhile
  }

  /** t is s after a BPDU on the port named id. */
  ghost predicate Handled(s: Node, id: string, frame: Frame, t: Node)
    requires IsBPDU(frame)
  {
    && t == s.With(t.Snap())
    && if !s.cfg.enabled || id !in s.ports || Decode(frame) == None then t.Snap() == s.Snap()
       else match Decode(frame).value
            case Tcn => t.Snap() == if s.ports[id].role == DesignatedRole then Signalled(s.cfg, s.Snap()) else s.Snap()
            case ConfigMessage(flags, heard, age) => Heard(s.cfg, id, flags, heard, age, s.Snap(), t.Snap())
  }

  /** t is s after a port was added or changed. */
  ghost predicate Changed(s: Node, t: Node) {
    && t == s.With(t.Snap())
    && if s.cfg.enabled then RolesSettled(s.cfg, Resynced(s.sw.ports, s.Snap()), t.Snap()) else t.Snap() == s.Snap()
  }

  /** t is s after a configuration; disabling takes every port out of the tree and changes nothing else. */
  ghost predicate Configured(s: Node, want: StpConfig, t: Node) {
    var u := s.(cfg := WithDefaults(want));
    && t == u.With(t.Snap())
    && if want.enabled then RolesSettled(u.cfg, Resynced(s.sw.ports, s.Snap()), t.Snap())
       else t.Snap() == u.Snap().(ports := map[], entries := DropEntries(map[], s.ports, s.sw.entries, {}))
  }

  // ------------------------------------------------------------ identifiers

  lemma {:induction false} FromBEInjective(a: seq<Byte>, b: seq<Byte>)
    requires |a| == |b| && FromBE(a) == FromBE(b)
    ensures a == b
  {
    if a != [] {
      var m := |a| - 1;
      assert FromBE(a) == FromBE(a[..m]) * 256 + a[m] && FromBE(b) == FromBE(b[..m]) * 256 + b[m];
      FromBEInjective(a[..m], b[..m]);
      assert a == a[..m] + [a[m]] && b == b[..m] + [b[m]];
    }
  }

  /** Bridges rank by priority, then by hardware address; so bridges with different addresses have different IDs. */
  lemma BridgeIDOrder(s: Node, t: Node)
    ensures s.BridgeID() < t.BridgeID() <==>
            s.cfg.priority < t.cfg.priority || (s.cfg.priority == t.cfg.priority && FromBE(s.mac) < FromBE(t.mac))
    ensures s.BridgeID() == t.BridgeID() <==> s.cfg.priority == t.cfg.priority && s.mac == t.mac
  {
    MacFits(s.mac);
    MacFits(t.mac);
    if s.cfg.priority == t.cfg.priority && FromBE(s.mac) == FromBE(t.mac) { FromBEInjective(s.mac, t.mac); }
    hide FromBE;
  }

  /** The configured port priority, 128 when none is. */
  function Priority(e: PortEntry): nat { if e.attrs.stpPriority == 0 then 128 else e.attrs.stpPriority }

  /** Ports rank by priority, then by the low byte of their number; only that can make two of them equal. */
  lemma PortIDOrder(e: PortEntry, f: PortEntry)
    requires e.attrs.Valid() && f.attrs.Valid()
    ensures e.StpPortID() < 0x1_0000 && e.attrs.PathCost() == if e.attrs.stpCost == 0 then 100 else e.attrs.stpCost
    ensures e.StpPortID() < f.StpPortID() <==>
            Priority(e) < Priority(f) || (Priority(e) == Priority(f) && e.portNum % 256 < f.portNum % 256)
    ensures e.StpPortID() == f.StpPortID() <==> Priority(e) == Priority(f) && e.portNum % 256 == f.portNum % 256
  {}
}
