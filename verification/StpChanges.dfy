/**
 Topology changes: which events are one, what they do to learned addresses, how long the root
 advertises one, and when another bridge has one to report.
 */
module StpChanges {
  import opened Wrappers
  import opened SwitchPorts
  import opened Frames
  import SwitchModel
  import Fdb
  import opened StpVectors
  import opened StpSteps
  import opened StpRuns
  import opened StpHistory
  import opened Bpdu

  /** Some port's role is not what it was; new ports count as having been blocked. */
  predicate RolesMoved(was: Ports, ports: Ports) { exists id :: id in ports && ports[id].role != RoleWas(was, id) }

  /** A topology change notification comes in on a designated port. */
  predicate Notified(s: Node, ev: Event) {
    && ev.Receive? && IsBPDU(ev.frame) && Decode(ev.frame) == Some(Tcn)
    && s.cfg.enabled && ev.id in s.ports && s.ports[ev.id].role == DesignatedRole
  }

  /** The event is a topology change. */
  predicate Turns(s: Node, ev: Event, t: Node) { RolesMoved(s.ports, t.ports) || Notified(s, ev) }

  /** The configuration message the event brings to a port of the tree, if any. */
  function Brings(s: Node, ev: Event): Option<Message> {
    if ev.Receive? && IsBPDU(ev.frame) && s.cfg.enabled && ev.id in s.ports then
      match Decode(ev.frame)
      case Some(ConfigMessage(flags, heard, age)) => Some(ConfigMessage(flags, heard, age))
      case _ => None
    else None
  }

  /** It carries the topology-change flag, bit 0. */
  predicate Announced(s: Node, ev: Event) {
    match Brings(s, ev)
    case Some(ConfigMessage(flags, _, _)) => flags % 2 == 1
    case _ => false
  }

  /** It carries the acknowledgement flag, bit 7, and came in on the root port. */
  predicate Acknowledged(s: Node, ev: Event, t: Node) {
    match Brings(s, ev)
    case Some(ConfigMessage(flags, _, _)) => flags >= 0x80 && ev.id == t.rootPort
    case _ => false
  }

  /** The hello timer runs out with this event. */
  predicate HelloDue(s: Node, ev: Event) { ev.Tick? && s.lastHello + ev.dt >= s.cfg.helloTime }

  function GateOf(s: Node, id: string): Option<PortState> {
    if id in s.ports && s.ports[id].entry in s.sw.entries then Some(s.sw.entries[s.ports[id].entry].stpState) else None
  }

  /** Port id of the tree reaches Forwarding with this tick. */
  predicate Rose(s: Node, ev: Event, t: Node, id: string) {
    ev.Tick? && GateOf(t, id) == Some(Forwarding) && GateOf(s, id) != Some(Forwarding)
  }

  // ------------------------------------------------------------- one snapshot

  /** The table, without its learned addresses if those are to go. */
  function Kept(m: Fdb.Table, gone: bool): Fdb.Table { map k | k in m && (m[k].fixed || !gone) :: m[k] }

  lemma KeptFacts(m: Fdb.Table, gone: bool)
    ensures Kept(m, false) == m && DynamicCleared(m) == Kept(m, true) && Kept(Kept(m, gone), true) == Kept(m, true)
  {}

  /** What a recompute does beside roles and gates, if it was or was not a topology change. */
  ghost predicate Effect(cfg: StpConfig, u: Snapshot, t: Snapshot, turned: bool) {
    && t.tcWhile == (if turned && t.claim.rootPort == "" then cfg.maxAge + cfg.forwardDelay else u.tcWhile)
    && (t.tcnPending <==> u.tcnPending || (turned && t.claim.rootPort != ""))
    && t.fdb == Kept(u.fdb, turned)
  }

  lemma SignalledEffect(cfg: StpConfig, u: Snapshot)
    ensures Effect(cfg, u, Signalled(cfg, u), true) && Effect(cfg, u, u, false)
  {
    hide Kept;
    KeptFacts(u.fdb, false);
  }

  lemma MovedIff(c: RootClaim, was: Ports, ports: Ports, entries: Entries)
    requires Linked(ports, entries)
    requires forall id | id in ports :: ports[id].role == RoleWas(was, id)
    ensures Movers(c, ports, entries) != {} <==> RolesMoved(was, PassPorts(Give(c), ports, entries, {}))
  {
    var ps := PassPorts(Give(c), ports, entries, {});
    PassKeys(Give(c), ports, entries);
    hide PassPorts;
    forall id | id in ports
      ensures id in Movers(c, ports, entries) <==> ps[id].role != RoleWas(was, id)
    {
      PassOne(Give(c), ports, entries, id);
    }
    if RolesMoved(was, ps) {
      var id :| id in ps && ps[id].role != RoleWas(was, id);
      assert id in Movers(c, ports, entries);
    }
  }

  /** A recompute is a topology change exactly if a role moves. */
  lemma SettledEffect(cfg: StpConfig, was: Ports, u: Snapshot, t: Snapshot)
    requires Tied(u) && RolesSettled(cfg, u, t)
    requires forall id | id in u.ports :: u.ports[id].role == RoleWas(was, id)
    ensures Effect(cfg, u, t, RolesMoved(was, t.ports))
  {
    SettledPorts(cfg, u, t);
    MovedIff(t.claim, was, u.ports, u.entries);
    var given := u.(claim := t.claim, ports := t.ports, entries := t.entries);
    SignalledEffect(cfg, given);
    hide Signalled, PassPorts, PassEntries, Movers, ViewOf, Linked, Gated, BridgeView.Recomputed, RolesMoved;
  }

  lemma PreparedRoles(s: Snapshot, u: Snapshot)
    requires Prepared(s, u)
    ensures forall id | id in u.ports :: u.ports[id].role == RoleWas(s.ports, id)
  {}

  lemma SameRoles(ports: Ports)
    ensures !RolesMoved(ports, ports)
  {}

  // ----------------------------------------------------------------- one event

  /** What the event does to the topology-change state and to the table, the climb aside. */
  ghost predicate StepEffect(s: Node, ev: Event, t: Node) {
    && t.tcWhile == (if Turns(s, ev, t) && t.rootPort == "" then t.cfg.maxAge + t.cfg.forwardDelay else s.tcWhile)
    && (t.tcnPending <==> (s.tcnPending || (Turns(s, ev, t) && t.rootPort != "")) && !Acknowledged(s, ev, t))
    && t.sw.table == Kept(s.sw.table, Turns(s, ev, t) || Announced(s, ev))
  }

  lemma ResyncEffect(cfg: StpConfig, s: Node, t: Snapshot)
    requires NodeInv(s) && RolesSettled(cfg, Resynced(s.sw.ports, s.Snap()), t)
    ensures Effect(cfg, s.Snap(), t, RolesMoved(s.ports, t.ports))
  {
    hide RolesSettled, ResyncPorts, ResyncEntries, Linked, Gated, SwitchModel.RegistryInv, RolesMoved;
    ResyncedTied(s);
    ResyncedPrepared(s);
    PreparedRoles(s.Snap(), Resynced(s.sw.ports, s.Snap()));
    SettledEffect(cfg, s.ports, Resynced(s.sw.ports, s.Snap()), t);
  }

  lemma HeardSnapEffect(cfg: StpConfig, id: string, flags: Byte, heard: Vector, age: nat, s: Snapshot, t: Snapshot)
    requires id in s.ports && Tied(s) && Heard(cfg, id, flags, heard, age, s, t)
    ensures var turned := RolesMoved(s.ports, t.ports);
            && t.tcWhile == (if turned && t.claim.rootPort == "" then cfg.maxAge + cfg.forwardDelay else s.tcWhile)
            && (t.tcnPending <==> (s.tcnPending || (turned && t.claim.rootPort != ""))
                                  && !(flags >= 0x80 && id == t.claim.rootPort))
            && t.fdb == Kept(s.fdb, turned || flags % 2 == 1)
  {
    hide RolesSettled, Linked, Gated, FromWire, RolesMoved, Accepts, DynamicCleared, Kept;
    var stored := s.(ports := Stored(s.ports, id, heard, FromWire(age)));
    var u: Snapshot :|
      && (if Accepts(s.ports[id].info, heard) then RolesSettled(cfg, stored, u) else u == s)
      && t == u.(fdb := if flags % 2 == 1 then DynamicCleared(u.fdb) else u.fdb,
                 tcnPending := u.tcnPending && !(flags >= 0x80 && id == u.claim.rootPort));
    if Accepts(s.ports[id].info, heard) {
      StoredPrepared(s, id, heard, FromWire(age));
      PreparedRoles(s, stored);
      SettledEffect(cfg, s.ports, stored, u);
    } else {
      SameRoles(s.ports);
      SignalledEffect(cfg, s);
    }
    KeptFacts(u.fdb, false);
    KeptFacts(s.fdb, RolesMoved(s.ports, t.ports));
  }

  lemma StillEffect(s: Node, ev: Event, t: Node)
    requires t.Snap() == s.Snap() && !Notified(s, ev) && Brings(s, ev) == None
    ensures StepEffect(s, ev, t)
  {
    hide Notified, Brings, Kept, RolesMoved;
    SameRoles(s.ports);
    KeptFacts(s.sw.table, false);
  }

  lemma NotifiedEffect(s: Node, ev: Event, t: Node)
    requires Notified(s, ev) && t.Snap() == Signalled(s.cfg, s.Snap()) && t.cfg == s.cfg
    ensures StepEffect(s, ev, t)
  {
    assert Brings(s, ev) == None;
    hide Notified, Brings, Kept, RolesMoved, Signalled;
    SignalledEffect(s.cfg, s.Snap());
    SignalledSame(s.cfg, s.Snap());
  }

  lemma BroughtIsConfig(s: Node, ev: Event)
    requires Brings(s, ev).Some?
    ensures !Notified(s, ev)
  {
    hide Decode;
  }

  lemma BroughtEffect(s: Node, ev: Event, t: Node, flags: Byte, heard: Vector, age: nat)
    requires NodeInv(s) && Brings(s, ev) == Some(ConfigMessage(flags, heard, age)) && t.cfg == s.cfg
    requires ev.Receive? && ev.id in s.ports && Heard(s.cfg, ev.id, flags, heard, age, s.Snap(), t.Snap())
    ensures StepEffect(s, ev, t)
  {
    hide Notified, Brings, Kept, RolesMoved, Heard, NodeInv, Tied;
    BroughtIsConfig(s, ev);
    NodeTied(s);
    HeardSnapEffect(s.cfg, ev.id, flags, heard, age, s.Snap(), t.Snap());
  }

  lemma NodeTied(s: Node)
    requires NodeInv(s)
    ensures Tied(s.Snap())
  {
    hide SwitchModel.RegistryInv, Linked, Gated;
  }

  lemma HeardEffect(s: Node, id: string, frame: Frame, t: Node)
    requires NodeInv(s) && Follows(s, Receive(id, frame), t)
    ensures StepEffect(s, Receive(id, frame), t)
  {
    hide NodeInv, Heard, Signalled, Decode, StepEffect;
    var ev := Receive(id, frame);
    if Notified(s, ev) {
      NotifiedEffect(s, ev, t);
    } else {
      match Brings(s, ev)
      case Some(ConfigMessage(flags, heard, age)) => BroughtEffect(s, ev, t, flags, heard, age);
      case None => StillEffect(s, ev, t);
    }
  }

  lemma SignalledSame(cfg: StpConfig, u: Snapshot)
    ensures Signalled(cfg, u).ports == u.ports && Signalled(cfg, u).claim == u.claim
  {}

  lemma OtherEffect(s: Node, ev: Event, t: Node)
    requires NodeInv(s) && Follows(s, ev, t) && (ev.Change? || ev.Configure?)
    ensures StepEffect(s, ev, t)
  {
    hide RolesSettled, ResyncPorts, ResyncEntries, DropEntries, Linked, Gated, SwitchModel.RegistryInv;
    hide RolesMoved, Kept;
    KeptFacts(s.sw.table, false);
    match ev
    case Change =>
      if s.cfg.enabled { ResyncEffect(s.cfg, s, t.Snap()); } else { SameRoles(s.ports); }
    case Configure(want) =>
      if want.enabled { ResyncEffect(WithDefaults(want), s, t.Snap()); } else { NoRoles(s.ports); }
  }

  lemma NoRoles(was: Ports)
    ensures !RolesMoved(was, map[])
  {}

  // ------------------------------------------------------------------- ticks

  lemma AdvancedEffect(s: Node, dt: nat, mid: Snapshot)
    requires NodeInv(s) && Advanced(s.cfg, s.sw.ports, dt, s.Snap(), mid)
    ensures Effect(s.cfg, s.Snap(), mid, RolesMoved(s.ports, mid.ports))
    ensures forall id :: PortMoves(s.Snap(), mid, id, false, 0, 0)
  {
    hide RolesSettled, ResyncPorts, ResyncEntries, AgedPorts, Linked, Gated, SwitchModel.RegistryInv;
    hide RolesMoved, Kept, PortMoves;
    var u := s.Snap().(ports := AgedPorts(s.sw.ports, s.ports, s.sw.entries, s.cfg.maxAge, dt),
                       entries := ResyncEntries(s.sw.ports, s.ports, s.sw.entries));
    AgedPrepared(s, dt, u);
    PreparedRoles(s.Snap(), u);
    KeptFacts(s.sw.table, false);
    if Expires(ResyncPorts(s.sw.ports, s.ports, s.sw.entries), s.cfg.maxAge, dt) == {} {
      NotMoved(s.ports, u.ports);
      forall id ensures PortMoves(s.Snap(), mid, id, false, 0, 0) { PreparedMoves(s.Snap(), u, id); }
    } else {
      SettledEffect(s.cfg, s.ports, u, mid);
      forall id ensures PortMoves(s.Snap(), mid, id, false, 0, 0) { GivenMoves(s.cfg, s.Snap(), u, mid, id); }
    }
  }

  lemma NotMoved(was: Ports, ports: Ports)
    requires forall id | id in ports :: ports[id].role == RoleWas(was, id)
    ensures !RolesMoved(was, ports)
  {}

  /** The climb moves no role. */
  lemma ClimbRoles(was: Ports, ports: Ports, entries: Entries, forwardDelay: nat, dt: nat)
    requires Linked(ports, entries)
    ensures RolesMoved(was, PassPorts(Climb(forwardDelay, dt), ports, entries, {})) == RolesMoved(was, ports)
  {
    var ps := PassPorts(Climb(forwardDelay, dt), ports, entries, {});
    PassKeys(Climb(forwardDelay, dt), ports, entries);
    hide PassPorts;
    forall id | id in ports
      ensures id in ps && ps[id].role == ports[id].role
    {
      PassOne(Climb(forwardDelay, dt), ports, entries, id);
    }
  }

  /** While no role moves, the ports that rise in the climb are those that reach Forwarding. */
  lemma RiserIff(s: Node, dt: nat, mid: Snapshot, t: Node, id: string)
    requires NodeInv(s) && Ticked(s, dt, mid, t) && !RolesMoved(s.ports, mid.ports)
    ensures Rises(mid.ports, mid.entries, s.cfg.forwardDelay, dt, id) <==> Rose(s, Tick(dt), t, id)
  {
    hide Advanced, PassPorts, PassEntries, SwitchModel.RegistryInv, Linked, Gated;
    AdvancedTied(s, dt, mid);
    AdvancedEffect(s, dt, mid);
    PassKeys(Climb(s.cfg.forwardDelay, dt), mid.ports, mid.entries);
    if id in mid.ports {
      PassOne(Climb(s.cfg.forwardDelay, dt), mid.ports, mid.entries, id);
      BlockedGate(mid, id);
      assert mid.ports[id].role == RoleWas(s.ports, id);
      if id in s.ports { EnrolledEntry(s.ports, s.sw.entries, id); }
      assert PortMoves(s.Snap(), mid, id, false, 0, 0);
    }
  }

  lemma BlockedGate(s: Snapshot, id: string)
    requires Tied(s) && id in s.ports
    ensures s.ports[id].entry in s.entries
    ensures s.ports[id].role == BlockedRole <==> s.entries[s.ports[id].entry].stpState == Blocking
  {}

  /** What the event takes from the table of the addresses learned on port id. */
  predicate Forgets(s: Node, ev: Event, t: Node, id: string) {
    Turns(s, ev, t) || Announced(s, ev) || Rose(s, ev, t, id)
  }

  /** t's table is s's without the learned addresses the event takes. */
  ghost predicate TableKept(s: Node, ev: Event, t: Node) {
    && (forall k :: k in t.sw.table <==>
          k in s.sw.table && (s.sw.table[k].fixed || !Forgets(s, ev, t, s.sw.table[k].portID)))
    && (forall k | k in t.sw.table :: t.sw.table[k] == s.sw.table[k])
  }

  /** The topology-change timer once the event has, or has not, sent a hello. */
  function Ran(s: Node, ev: Event, left: int): int {
    if HelloDue(s, ev) && left > 0 then left - s.cfg.helloTime else left
  }

  function Started(s: Node, ev: Event, t: Node): int {
    if Turns(s, ev, t) && t.rootPort == "" then t.cfg.maxAge + t.cfg.forwardDelay else s.tcWhile
  }

  lemma TickParts(s: Node, dt: nat, mid: Snapshot, t: Node)
    requires NodeInv(s) && Ticked(s, dt, mid, t)
    ensures RolesMoved(s.ports, t.ports) == RolesMoved(s.ports, mid.ports) && t.Claim() == mid.claim
    ensures t.cfg == s.cfg && t.tcnPending == mid.tcnPending && t.tcWhile == Ran(s, Tick(dt), mid.tcWhile)
    ensures t.sw.table == PortsFlushed(mid.fdb, Risers(mid.ports, mid.entries, s.cfg.forwardDelay, dt))
  {
    hide PassPorts, PassEntries, SwitchModel.RegistryInv, Linked, Gated, RolesMoved, Risers, PortsFlushed;
    AdvancedTied(s, dt, mid);
    ClimbRoles(s.ports, mid.ports, mid.entries, s.cfg.forwardDelay, dt);
    hide Advanced;
  }

  lemma FlushedKept(m: Fdb.Table, gone: bool, ids: set<string>, k: Fdb.Key)
    ensures var m' := PortsFlushed(Kept(m, gone), ids);
            && (k in m' <==> k in m && (m[k].fixed || !(gone || m[k].portID in ids))) && (k in m' ==> m'[k] == m[k])
  {}

  lemma TickAdvanced(s: Node, dt: nat, mid: Snapshot, t: Node)
    requires Ticked(s, dt, mid, t)
    ensures Advanced(s.cfg, s.sw.ports, dt, s.Snap(), mid)
  {
    hide Advanced, ClimbedTo;
  }

  lemma RiserMember(s: Node, dt: nat, mid: Snapshot, t: Node, id: string)
    requires NodeInv(s) && Ticked(s, dt, mid, t) && !RolesMoved(s.ports, mid.ports)
    ensures id in Risers(mid.ports, mid.entries, s.cfg.forwardDelay, dt) <==> Rose(s, Tick(dt), t, id)
  {
    hide Ticked, NodeInv, RolesMoved, Rose;
    RiserIff(s, dt, mid, t, id);
  }

  lemma TickTable(s: Node, dt: nat, mid: Snapshot, t: Node)
    requires NodeInv(s) && Ticked(s, dt, mid, t)
    ensures TableKept(s, Tick(dt), t)
  {
    hide Ticked, NodeInv, RolesMoved, Risers, Rose, PortMoves, Kept, PortsFlushed;
    TickAdvanced(s, dt, mid, t);
    TickParts(s, dt, mid, t);
    AdvancedEffect(s, dt, mid);
    var turned, risers := RolesMoved(s.ports, mid.ports), Risers(mid.ports, mid.entries, s.cfg.forwardDelay, dt);
    forall id | !turned ensures id in risers <==> Rose(s, Tick(dt), t, id) { RiserMember(s, dt, mid, t, id); }
    forall k
      ensures k in t.sw.table <==>
              k in s.sw.table && (s.sw.table[k].fixed || !(turned || s.sw.table[k].portID in risers))
      ensures k in t.sw.table ==> t.sw.table[k] == s.sw.table[k]
    {
      FlushedKept(s.sw.table, turned, risers, k);
    }
  }

  /**
   What every event of a bridge does to topology-change state and learned addresses. It is a
   topology change exactly if a role moves or a notification comes in on a designated port; then the
   root starts its timer and any other bridge has a notification pending. Learned addresses go with
   a change, with the flag in a message, and for a port that reaches Forwarding; static ones never.
   */
  lemma ChangeMeaning(s: Node, ev: Event, t: Node)
    requires NodeInv(s) && Follows(s, ev, t) && !ev.Plane?
    ensures t.tcWhile == Ran(s, ev, Started(s, ev, t))
    ensures t.tcnPending <==> (s.tcnPending || (Turns(s, ev, t) && t.rootPort != "")) && !Acknowledged(s, ev, t)
    ensures TableKept(s, ev, t)
  {
    hide NodeInv, RolesMoved, Heard, RolesSettled, Advanced, ClimbedTo;
    match ev
    case Tick(dt) =>
      var mid :| Ticked(s, dt, mid, t);
      TickParts(s, dt, mid, t);
      AdvancedEffect(s, dt, mid);
      TickTable(s, dt, mid, t);
    case Receive(id, frame) => HeardEffect(s, id, frame, t);
    case _ => OtherEffect(s, ev, t);
  }

  // -------------------------------------------------------------- whole runs

  /** How many hellos the events from i to j send. */
  function Hellos(events: seq<Event>, states: seq<Node>, i: nat, j: nat): nat
    requires |states| == |events| + 1 && i <= j <= |events|
  {
    if i == j then 0 else Hellos(events, states, i, j - 1) + if HelloDue(states[j - 1], events[j - 1]) then 1 else 0
  }

  /** Event i is a topology change of a bridge that is then the root; up to j no other follows, nor a configuration. */
  ghost predicate Advertises(events: seq<Event>, states: seq<Node>, i: nat, j: nat)
    requires |states| == |events| + 1 && i < j <= |events|
  {
    && Turns(states[i], events[i], states[i + 1]) && states[i + 1].rootPort == ""
    && (forall k | i < k < j :: !Turns(states[k], events[k], states[k + 1]) && !events[k].Configure?)
  }

  /** What is left of a time after n hellos. */
  predicate Left(w: int, total: nat, hello: nat, n: nat) {
    if n * hello < total then w == total - n * hello else w <= 0
  }

  lemma LeftStep(w: int, total: nat, hello: nat, n: nat)
    requires Left(w, total, hello, n)
    ensures Left(if w > 0 then w - hello else w, total, hello, n + 1)
  {
    assert (n + 1) * hello == n * hello + hello;
  }

  /** A step of the switch itself leaves the bridge alone. */
  lemma PlaneQuiet(s: Node, ev: Event, t: Node)
    requires Follows(s, ev, t) && ev.Plane?
    ensures !Turns(s, ev, t) && t.tcWhile == s.tcWhile && t.tcnPending == s.tcnPending && t.cfg == s.cfg
    ensures !HelloDue(s, ev) && !Acknowledged(s, ev, t)
  {
    SameRoles(s.ports);
  }

  lemma SameConfig(s: Node, ev: Event, t: Node)
    requires Follows(s, ev, t) && !ev.Configure?
    ensures t.cfg == s.cfg
  {
    hide Advanced, ClimbedTo, Heard, RolesSettled, ResyncPorts, ResyncEntries;
  }

  /**
   After a topology change at the root, left alone: the timer counts down from maxAge plus
   forwardDelay by helloTime at every hello, the one sent by the changing event itself included.
   */
  lemma {:induction false} ChangeCountsDown(events: seq<Event>, states: seq<Node>, i: nat, j: nat)
    requires Run(events, states) && i < j <= |events| && Advertises(events, states, i, j)
    ensures var c := states[i + 1].cfg;
            && states[j].cfg == c
            && Left(states[j].tcWhile, c.maxAge + c.forwardDelay, c.helloTime, Hellos(events, states, i, j))
    decreases j
  {
    hide NodeInv, Follows, Run, Turns, Left;
    RunStep(events, states, j - 1);
    RunGated(events, states, j - 1);
    var s, ev, t := states[j - 1], events[j - 1], states[j];
    var c := states[i + 1].cfg;
    if ev.Plane? { PlaneQuiet(s, ev, t); } else { ChangeMeaning(s, ev, t); }
    if !ev.Configure? { SameConfig(s, ev, t); }
    if j == i + 1 {
      assert Hellos(events, states, i, i) == 0;
      LeftStart(c.maxAge + c.forwardDelay, c.helloTime);
    } else {
      ChangeCountsDown(events, states, i, j - 1);
    }
    var w := if j == i + 1 then Started(s, ev, t) else s.tcWhile;
    LeftStep(w, c.maxAge + c.forwardDelay, c.helloTime, Hellos(events, states, i, j - 1));
  }

  lemma LeftStart(total: nat, hello: nat)
    ensures Left(total, total, hello, 0)
  {}

  /**
   So a hello sent by a later tick carries the topology-change flag exactly if the hellos before it
   leave some of that time: the change is advertised in ceil((maxAge + forwardDelay) / helloTime) hellos.
   */
  lemma ChangeAdvertised(events: seq<Event>, states: seq<Node>, i: nat, j: nat, mid: Snapshot)
    requires Run(events, states) && i < j < |events| && Advertises(events, states, i, j + 1)
    requires events[j].Tick? && Ticked(states[j], events[j].dt, mid, states[j + 1])
    ensures var c := states[i + 1].cfg;
            mid.tcWhile > 0 <==> Hellos(events, states, i, j) * c.helloTime < c.maxAge + c.forwardDelay
  {
    hide NodeInv, Follows, RolesMoved, Run;
    RunStep(events, states, j);
    assert Advertises(events, states, i, j);
    ChangeCountsDown(events, states, i, j);
    RunGated(events, states, j);
    hide Advanced, ClimbedTo;
    TickParts(states[j], events[j].dt, mid, states[j + 1]);
    AdvancedEffect(states[j], events[j].dt, mid);
    assert !Turns(states[j], events[j], states[j + 1]);
  }

  /** Event i is a topology change of a bridge that is then not the root, and was not acknowledged up to j. */
  ghost predicate Reports(events: seq<Event>, states: seq<Node>, i: nat, j: nat)
    requires |states| == |events| + 1 && i < j <= |events|
  {
    && Turns(states[i], events[i], states[i + 1]) && states[i + 1].rootPort != ""
    && (forall k | i <= k < j :: !Acknowledged(states[k], events[k], states[k + 1]))
  }

  ghost predicate Unreported(events: seq<Event>, states: seq<Node>, j: nat)
    requires |states| == |events| + 1 && j <= |events|
  {
    exists i: nat | i < j :: Reports(events, states, i, j)
  }

  lemma UnreportedStep(events: seq<Event>, states: seq<Node>, j: nat)
    requires |states| == |events| + 1 && 0 < j <= |events|
    ensures var s, ev, t := states[j - 1], events[j - 1], states[j];
            Unreported(events, states, j) <==>
            (Unreported(events, states, j - 1) || (Turns(s, ev, t) && t.rootPort != "")) && !Acknowledged(s, ev, t)
  {
    hide Turns, Acknowledged;
    var h := j - 1;
    if i: nat :| i < j && Reports(events, states, i, j) {
      if i < h { assert Reports(events, states, i, h); }
    }
    if !Acknowledged(states[h], events[h], states[j]) {
      if i: nat :| i < h && Reports(events, states, i, h) { assert Reports(events, states, i, j); }
      if Turns(states[h], events[h], states[j]) && states[j].rootPort != "" { assert Reports(events, states, h, j); }
    }
  }

  lemma PendingStep(s: Node, ev: Event, t: Node)
    requires NodeInv(s) && Follows(s, ev, t)
    ensures t.tcnPending <==> (s.tcnPending || (Turns(s, ev, t) && t.rootPort != "")) && !Acknowledged(s, ev, t)
  {
    hide NodeInv, Follows, Turns, Acknowledged, TableKept, Started;
    if ev.Plane? { PlaneQuiet(s, ev, t); } else { ChangeMeaning(s, ev, t); }
  }

  lemma StartsQuiet(events: seq<Event>, states: seq<Node>)
    requires Run(events, states)
    ensures |states| == |events| + 1 && !states[0].tcnPending && !Unreported(events, states, 0)
  {
    hide Follows, Reports;
  }

  /** In every run a notification is pending exactly if some change has not been acknowledged since. */
  lemma {:induction false} PendingIff(events: seq<Event>, states: seq<Node>, j: nat)
    requires Run(events, states) && j <= |events|
    ensures states[j].tcnPending <==> Unreported(events, states, j)
  {
    hide NodeInv, Follows, Run, Turns, Acknowledged, Reports, Unreported;
    StartsQuiet(events, states);
    if 0 < j {
      PendingIff(events, states, j - 1);
      RunStep(events, states, j - 1);
      RunGated(events, states, j - 1);
      PendingStep(states[j - 1], events[j - 1], states[j]);
      UnreportedStep(events, states, j);
    }
  }

  // ------------------------------------------------------------------- hellos

  lemma HelloTimer(s: Node, ev: Event, t: Node)
    requires Follows(s, ev, t)
    ensures t.lastHello == if HelloDue(s, ev) then 0 else s.lastHello + Elapsed(ev)
  {
    hide Advanced, ClimbedTo, Heard, RolesSettled, ResyncPorts, ResyncEntries, DropEntries;
  }

  /** In every run the next hello after one is due with the first tick that brings the time since to helloTime. */
  lemma {:induction false} HelloSpacing(events: seq<Event>, states: seq<Node>, i: nat, j: nat)
    requires Run(events, states) && i < j < |events| && HelloDue(states[i], events[i])
    requires forall k | i < k < j :: !HelloDue(states[k], events[k])
    ensures states[j].lastHello == TimeOf(events[i + 1..j])
    ensures HelloDue(states[j], events[j]) <==>
            events[j].Tick? && TimeOf(events[i + 1..j + 1]) >= states[j].cfg.helloTime
    decreases j
  {
    hide Follows, Run, HelloDue, TimeOf, Elapsed;
    RunStep(events, states, j - 1);
    HelloTimer(states[j - 1], events[j - 1], states[j]);
    if j == i + 1 {
      NoTime(events, j);
    } else {
      HelloSpacing(events, states, i, j - 1);
      TimeGrows(events, i + 1, j - 1);
    }
    TimeGrows(events, i + 1, j);
    DueIs(states[j], events[j]);
  }

  lemma TimeGrows(events: seq<Event>, a: nat, b: nat)
    requires a <= b < |events|
    ensures TimeOf(events[a..b + 1]) == TimeOf(events[a..b]) + Elapsed(events[b])
  {
    assert events[a..b + 1] == events[a..b] + [events[b]];
    TimeSnoc(events[a..b], events[b]);
  }

  lemma NoTime(events: seq<Event>, a: nat)
    requires a <= |events|
    ensures TimeOf(events[a..a]) == 0
  {}

  lemma DueIs(s: Node, ev: Event)
    ensures HelloDue(s, ev) <==> ev.Tick? && s.lastHello + Elapsed(ev) >= s.cfg.helloTime
  {}
}
