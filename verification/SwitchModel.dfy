/**
 The switch as a state and its atomic steps: port registration, the three steps
 of a removal, and delivery. The registry, the forwarding table's entry handles
 and the handles cached by port references are proved to agree.
 */
module SwitchModel {
  import opened Wrappers
  import opened SwitchPorts
  import opened Storm
  import opened Fdb
  import opened Frames

  /**
   ports is the registry by ID; entries holds every entry ever registered, by
   handle. `removing` are the entries whose RemovePort has started (the entry is
   out of the registry) and not finished.
   */
  datatype Switch = Switch(
    ports: map<string, Handle>, entries: map<Handle, PortEntry>, next: Handle, portNumSeq: nat,
    table: Table, maxAge: int, removing: set<Handle>, instanceID: nat)

  // ---------------------------------------------------------------- delivery

  /** What becomes of a frame before forwarding is considered. */
  datatype Verdict =
    | Ignored                     // unparsable, or the entry is gone
    | Dropped
    | ShutPort(reason: string)    // loop probe came back, or BPDU guard tripped
    | ToTree                      // a BPDU for the spanning tree
    | Consumed                    // another reserved group address
    | Admitted(f: FrameView, key: nat)

  function Ingress(e: PortEntry, frame: Frame, instanceID: nat): Verdict {
    match Parse(frame)
    case None => Ignored
    case Some(f) =>
      if e.gone then Ignored
      else if e.attrs.disabled then Dropped
      else if DstMAC(frame) == LOOP_PROBE_DST && OwnLoopProbe(frame, instanceID) then ShutPort("loop")
      else if ReservedGroup(DstMAC(frame)) then
        if e.attrs.bpduGuard && IsBPDU(frame) then ShutPort("bpdu_guard")
        else if e.attrs.stp && IsBPDU(frame) then ToTree
        else Consumed
      else if e.stpState == Blocking || e.stpState == Listening then Dropped
      else match IngressKey(e.attrs, f)
        case None => Dropped
        case Some(key) =>
          if e.attrs.securityMAC.Some? && e.attrs.securityMAC.value != SrcMAC(frame) then Dropped
          else Admitted(f, key)
  }

  lemma AdmittedIsParsed(e: PortEntry, frame: Frame, instanceID: nat)
    ensures var v := Ingress(e, frame, instanceID);
            v.Admitted? ==> Parse(frame) == Some(v.f) && v.f.data == frame && !e.gone
  {}

  function TableAfter(s: Switch, h: Handle, frame: Frame, key: nat, now: int): Table
    requires h in s.entries && ETH_HEADER <= |frame|
  {
    if Multicast(SrcMAC(frame)) then s.table
    else Learned(s.table, Key(key, SrcMAC(frame)), s.entries[h].id, h, now)
  }

  /** Port t may be sent a frame that came in on src with this VLAN key. */
  predicate Reaches(src: PortEntry, t: PortEntry, key: nat) {
    t.id != src.id && t.stpState == Forwarding && EgressEligible(src.attrs, t.attrs, key)
  }

  /** The registered ports a flood reaches. */
  function FloodSet(s: Switch, src: PortEntry, key: nat): set<Handle> {
    set id | id in s.ports && s.ports[id] in s.entries && Reaches(src, s.entries[s.ports[id]], key) :: s.ports[id]
  }

  /** The entry a table hit names: by handle when learned, by ID when static. */
  function HitTarget(s: Switch, e: Fdb.Entry): Option<Handle> {
    if e.port.Some? then e.port
    else if e.portID in s.ports then Some(s.ports[e.portID])
    else None
  }

  predicate IsHit(m: Table, frame: Frame, key: nat, maxAge: int, now: int)
    requires ETH_HEADER <= |frame|
  {
    !Multicast(DstMAC(frame)) && Found(m, Key(key, DstMAC(frame)), maxAge, now).Some?
  }

  /** The port a hit on e is sent to, if it may receive the frame. */
  function UnicastSet(s: Switch, src: PortEntry, e: Fdb.Entry, key: nat): set<Handle> {
    match HitTarget(s, e)
    case None => {}
    case Some(t) =>
      if t in s.entries && !s.entries[t].gone && Reaches(src, s.entries[t], key) then {t} else {}
  }

  /** Who is sent the frame, given a table that has learned from it. */
  function Targets(s: Switch, src: PortEntry, frame: Frame, key: nat, now: int): set<Handle>
    requires ETH_HEADER <= |frame|
  {
    if IsHit(s.table, frame, key, s.maxAge, now) then
      UnicastSet(s, src, Found(s.table, Key(key, DstMAC(frame)), s.maxAge, now).value, key)
    else if src.attrs.stormPPS > 0 && !Allows(src.storm, src.attrs.stormPPS, now) then {}
    else FloodSet(s, src, key)
  }

  /** Spending storm budget changes neither who is reached nor what is sent. */
  lemma BudgetAside(s: Switch, h: Handle, b: Bucket, src: PortEntry, f: FrameView, key: nat)
    requires h in s.entries && Parse(f.data) == Some(f)
    ensures var t := s.(entries := s.entries[h := s.entries[h].(storm := b)]);
            && (Indexed(s) ==> Indexed(t)) && FloodSet(t, src, key) == FloodSet(s, src, key)
            && forall to :: CopiesTo(t, to, f, key) == CopiesTo(s, to, f, key)
  {
    var t := s.(entries := s.entries[h := s.entries[h].(storm := b)]);
    assert forall g :: g in t.entries <==> g in s.entries;
    assert forall g | g in s.entries :: t.entries[g].attrs == s.entries[g].attrs && t.entries[g].id == s.entries[g].id
             && t.entries[g].stpState == s.entries[g].stpState;
  }

  /** The frame spends storm budget. */
  predicate SpendsBudget(s: Switch, src: PortEntry, frame: Frame, key: nat, now: int)
    requires ETH_HEADER <= |frame|
  {
    !IsHit(s.table, frame, key, s.maxAge, now) && src.attrs.stormPPS > 0
  }

  /** Who receives an admitted frame: nobody while the source is learning. */
  function Receivers(s: Switch, h: Handle, frame: Frame, key: nat, now: int): set<Handle>
    requires h in s.entries && ETH_HEADER <= |frame|
  {
    if s.entries[h].stpState == Learning then {}
    else Targets(s.(table := TableAfter(s, h, frame, key, now)), s.entries[h], frame, key, now)
  }

  /** One rendering of the frame per receiver. */
  function CopiesTo(s: Switch, to: set<Handle>, f: FrameView, key: nat): map<Handle, Frame>
    requires Parse(f.data) == Some(f)
  {
    map t | t in to && t in s.entries :: EgressFrame(f, key, s.entries[t].attrs)
  }

  /** `outs` sends exactly these copies, one per receiver. */
  ghost predicate Lists(outs: seq<(Handle, Frame)>, copies: map<Handle, Frame>) {
    && (forall i, j | 0 <= i < j < |outs| :: outs[i].0 != outs[j].0)
    && (forall i | 0 <= i < |outs| :: outs[i].0 in copies && copies[outs[i].0] == outs[i].1)
    && (forall t | t in copies :: (t, copies[t]) in outs)
  }

  /** The same for the copies to ports outside `todo`. */
  ghost predicate ListsBut(outs: seq<(Handle, Frame)>, copies: map<Handle, Frame>, entries: map<Handle, PortEntry>,
                           todo: set<string>)
    requires copies.Keys <= entries.Keys
  {
    && (forall i, j | 0 <= i < j < |outs| :: outs[i].0 != outs[j].0)
    && (forall i | 0 <= i < |outs| ::
          outs[i].0 in copies && copies[outs[i].0] == outs[i].1 && entries[outs[i].0].id !in todo)
    && (forall t | t in copies && entries[t].id !in todo :: (t, copies[t]) in outs)
  }

  /** One more port is done: its copy was added, or it gets none. */
  lemma ListsOneMore(outs: seq<(Handle, Frame)>, copies: map<Handle, Frame>, entries: map<Handle, PortEntry>,
                     todo: set<string>, id: string, t: Handle)
    requires copies.Keys <= entries.Keys && ListsBut(outs, copies, entries, todo) && id in todo
    requires forall u | u in copies && entries[u].id == id :: u == t
    requires t in copies ==> entries[t].id == id
    ensures ListsBut(if t in copies then outs + [(t, copies[t])] else outs, copies, entries, todo - {id})
  {
    var outs' := if t in copies then outs + [(t, copies[t])] else outs;
    forall u | u in copies && entries[u].id !in todo - {id}
      ensures (u, copies[u]) in outs'
    {
      if entries[u].id == id { assert outs'[|outs|] == (t, copies[t]); }
    }
  }

  /** Who gets a copy in a flood, port by port. */
  lemma FloodMember(s: Switch, src: PortEntry, f: FrameView, key: nat, id: string)
    requires Indexed(s) && id in s.ports && Parse(f.data) == Some(f)
    ensures var copies, t := CopiesTo(s, FloodSet(s, src, key), f, key), s.ports[id];
            && copies.Keys <= s.entries.Keys && (t in copies ==> s.entries[t].id == id)
            && (forall u | u in copies && s.entries[u].id == id :: u == t)
            && (t in copies <==> id != src.id && s.entries[t].stpState == Forwarding
                                 && EgressEligible(src.attrs, s.entries[t].attrs, key))
            && (t in copies ==> copies[t] == EgressFrame(f, key, s.entries[t].attrs))
  {}

  lemma ListsAll(outs: seq<(Handle, Frame)>, copies: map<Handle, Frame>, entries: map<Handle, PortEntry>)
    requires copies.Keys <= entries.Keys && ListsBut(outs, copies, entries, {})
    ensures Lists(outs, copies)
  {}

  lemma ListsNone(s: Switch, src: PortEntry, f: FrameView, key: nat)
    requires Indexed(s) && Parse(f.data) == Some(f)
    ensures var copies := CopiesTo(s, FloodSet(s, src, key), f, key);
            copies.Keys <= s.entries.Keys && ListsBut([], copies, s.entries, s.ports.Keys)
  {}

  function Delivered(s: Switch, h: Handle, frame: Frame, now: int): Switch
    requires h in s.entries
  {
    var e := s.entries[h];
    match Ingress(e, frame, s.instanceID)
    case Admitted(f, key) =>
      AdmittedIsParsed(e, frame, s.instanceID);
      var learned := s.(table := TableAfter(s, h, frame, key, now));
      if e.stpState != Learning && SpendsBudget(learned, e, frame, key, now)
      then learned.(entries := s.entries[h := e.(storm := Taken(e.storm, e.attrs.stormPPS, now))])
      else learned
    case ShutPort(_) =>
      s.(entries := s.entries[h := e.(attrs := e.attrs.(disabled := true))], table := PortFlushed(s.table, e.id))
    case _ => s
  }

  /** The copies sent: receiver and bytes. */
  function Copies(s: Switch, h: Handle, frame: Frame, now: int): (out: map<Handle, Frame>)
    requires h in s.entries
  {
    match Ingress(s.entries[h], frame, s.instanceID)
    case Admitted(f, key) =>
      AdmittedIsParsed(s.entries[h], frame, s.instanceID);
      CopiesTo(s, Receivers(s, h, frame, key, now), f, key)
    case _ => map[]
  }

  // -------------------------------------------------------------- other steps

  datatype Step =
    | AddPort(id: string, attrs: PortAttrs)
    | Unregister(id: string)               // RemovePort, first step
    | MarkGone(h: Handle)                  // RemovePort, second step
    | FinishRemove(h: Handle)              // RemovePort, third step: flush
    | Deliver(h: Handle, frame: Frame, now: int)
    | SetAttrs(id: string, attrs: PortAttrs)
    | SetGate(h: Handle, state: PortState) // by the spanning tree
    | TableStep(ev: Event)                 // flushes, sweeps, static entries
    | SetMaxAge(maxAge: int)

  predicate Enabled(s: Switch, step: Step) {
    match step
    case MarkGone(h) => h in s.removing && h in s.entries && !s.entries[h].gone
    case FinishRemove(h) => h in s.removing && h in s.entries && s.entries[h].gone
    case Deliver(h, _, _) => h in s.entries
    case SetGate(h, _) => h in s.entries
    case TableStep(ev) => !ev.Learn? && (ev.AddStatic? ==> ev.portID != "")  // only deliveries learn
    case _ => true
  }

  predicate CanAdd(s: Switch, id: string, attrs: PortAttrs) {
    attrs.Valid() && id != "" && id !in s.ports
  }

  function Next(s: Switch, step: Step): Switch
    requires Enabled(s, step)
  {
    match step
    case AddPort(id, attrs) =>
      if CanAdd(s, id, attrs) then
        var num := (s.portNumSeq + 1) % 65536;
        s.(ports := s.ports[id := s.next], next := s.next + 1, portNumSeq := num,
           entries := s.entries[s.next := PortEntry(id, attrs, false, Forwarding, num, Bucket(0, 0))])
      else s
    case Unregister(id) =>
      if id in s.ports then s.(ports := s.ports - {id}, removing := s.removing + {s.ports[id]}) else s
    case MarkGone(h) => s.(entries := s.entries[h := s.entries[h].(gone := true)])
    case FinishRemove(h) =>
      s.(removing := s.removing - {h}, table := PortFlushed(s.table, s.entries[h].id))
    case Deliver(h, frame, now) => Delivered(s, h, frame, now)
    case SetAttrs(id, attrs) =>
      if id in s.ports && s.ports[id] in s.entries && attrs.Valid()
      then s.(entries := s.entries[s.ports[id] := s.entries[s.ports[id]].(attrs := attrs)]) else s
    case SetGate(h, state) => s.(entries := s.entries[h := s.entries[h].(stpState := state)])
    case TableStep(ev) => s.(table := Apply(s.table, ev))
    case SetMaxAge(maxAge) => if 0 < maxAge then s.(maxAge := maxAge) else s
  }

  // --------------------------------------------------------------- invariant

  /** The registry names entries by their own IDs. */
  ghost predicate Indexed(s: Switch) {
    forall id | id in s.ports :: s.ports[id] in s.entries && s.entries[s.ports[id]].id == id
  }

  predicate Registered(s: Switch, h: Handle) {
    h in s.entries && s.entries[h].id in s.ports && s.ports[s.entries[h].id] == h
  }

  /** Every entry is registered, being removed, or gone. */
  ghost predicate RegistryInv(s: Switch) {
    && (forall id | id in s.ports ::
          && id != "" && s.ports[id] in s.entries && s.entries[s.ports[id]].id == id
          && !s.entries[s.ports[id]].gone && s.ports[id] !in s.removing)
    && (forall h | h in s.entries ::
          h < s.next && s.entries[h].id != "" && (Registered(s, h) || h in s.removing || s.entries[h].gone))
    && s.removing <= s.entries.Keys
  }

  /** A learned address points to an entry that is registered or still being removed. */
  predicate Backed(s: Switch, e: Fdb.Entry) {
    if e.fixed then e.port == None && e.portID != ""
    else
      && e.port.Some? && e.port.value in s.entries && s.entries[e.port.value].id == e.portID
      && (Registered(s, e.port.value) || e.port.value in s.removing)
  }

  ghost predicate Inv(s: Switch) {
    RegistryInv(s) && forall k | k in s.table :: Backed(s, s.table[k])
  }

  /** t has the registry of s: same IDs, same entries, none added, gone or removed. */
  ghost predicate SameRegistry(s: Switch, t: Switch) {
    && t.ports == s.ports && t.removing == s.removing && t.next == s.next && t.entries.Keys == s.entries.Keys
    && forall g | g in s.entries :: t.entries[g].id == s.entries[g].id && t.entries[g].gone == s.entries[g].gone
  }

  lemma SameRegistryInv(s: Switch, t: Switch)
    requires RegistryInv(s) && SameRegistry(s, t)
    ensures RegistryInv(t)
  {
    assert forall g | g in t.entries :: Registered(t, g) == Registered(s, g);
  }

  /** Deliveries register and remove nothing. */
  lemma DeliveredRegistry(s: Switch, h: Handle, frame: Frame, now: int)
    requires h in s.entries
    ensures SameRegistry(s, Delivered(s, h, frame, now))
  {}

  lemma AddedRegistry(s: Switch, id: string, attrs: PortAttrs)
    requires RegistryInv(s)
    ensures RegistryInv(Next(s, AddPort(id, attrs)))
  {
    var t := Next(s, AddPort(id, attrs));
    assert forall g | g in s.entries && Registered(s, g) :: Registered(t, g);
  }

  lemma RemovedRegistry(s: Switch, step: Step)
    requires RegistryInv(s) && Enabled(s, step) && (step.Unregister? || step.MarkGone? || step.FinishRemove?)
    ensures RegistryInv(Next(s, step))
  {
    var t := Next(s, step);
    assert forall g | g in s.entries && Registered(s, g) && g !in t.removing :: Registered(t, g);
  }

  lemma RegistryStep(s: Switch, step: Step)
    requires RegistryInv(s) && Enabled(s, step)
    ensures RegistryInv(Next(s, step))
  {
    hide RegistryInv, Delivered;
    match step
    case AddPort(id, attrs) => AddedRegistry(s, id, attrs);
    case Deliver(h, frame, now) =>
      DeliveredRegistry(s, h, frame, now);
      SameRegistryInv(s, Next(s, step));
    case SetAttrs(_, _) => SameRegistryInv(s, Next(s, step));
    case SetGate(_, _) => SameRegistryInv(s, Next(s, step));
    case TableStep(_) => SameRegistryInv(s, Next(s, step));
    case SetMaxAge(_) => SameRegistryInv(s, Next(s, step));
    case _ => RemovedRegistry(s, step);
  }

  /** Only finishing a removal can leave a learned address without its entry. */
  lemma BackedStep(s: Switch, step: Step, e: Fdb.Entry)
    requires RegistryInv(s) && Enabled(s, step) && Backed(s, e)
    ensures Backed(Next(s, step), e) || (step.FinishRemove? && !e.fixed && e.portID == s.entries[step.h].id)
  {}

  /** What a step leaves in the table was there before, is static, or was learned on a live entry. */
  lemma TableStepSources(s: Switch, step: Step, k: Key)
    requires RegistryInv(s) && Enabled(s, step) && k in Next(s, step).table
    ensures var e := Next(s, step).table[k];
            || (k in s.table && s.table[k] == e
                && !(step.FinishRemove? && !e.fixed && e.portID == s.entries[step.h].id))
            || (e.fixed && e.port == None && e.portID != "")
            || (step.Deliver? && !s.entries[step.h].gone
                && e == Entry(s.entries[step.h].id, Some(step.h), step.now, false))
  {
    if step.Deliver? { AdmittedIsParsed(s.entries[step.h], step.frame, s.instanceID); }
  }

  lemma StepInv(s: Switch, step: Step)
    requires Inv(s) && Enabled(s, step)
    ensures Inv(Next(s, step))
  {
    RegistryStep(s, step);
    forall k | k in Next(s, step).table
      ensures Backed(Next(s, step), Next(s, step).table[k])
    {
      TableStepSources(s, step, k);
      BackedStep(s, step, Next(s, step).table[k]);
    }
  }

  function Start(instanceID: nat, maxAge: int): Switch {
    Switch(map[], map[], 0, 0, map[], maxAge, {}, instanceID)
  }

  /** The states along a run of enabled steps. */
  ghost predicate Run(states: seq<Switch>, steps: seq<Step>) {
    && |states| == |steps| + 1 && states[0] == Start(states[0].instanceID, states[0].maxAge)
    && forall i | 0 <= i < |steps| :: Enabled(states[i], steps[i]) && states[i + 1] == Next(states[i], steps[i])
  }

  lemma {:induction false} RunInv(states: seq<Switch>, steps: seq<Step>, i: nat)
    requires Run(states, steps) && i < |states|
    ensures Inv(states[i])
  {
    if i > 0 {
      RunInv(states, steps, i - 1);
      StepInv(states[i - 1], steps[i - 1]);
    }
  }

  /** Every entry has valid attributes, and the port number its place in the order of registration gives it. */
  ghost predicate Numbered(s: Switch) {
    && s.portNumSeq == s.next % 65536
    && forall h | h in s.entries :: h < s.next && s.entries[h].portNum == (h + 1) % 65536 && s.entries[h].attrs.Valid()
  }

  lemma StepNumbered(s: Switch, step: Step)
    requires Numbered(s) && Enabled(s, step)
    ensures Numbered(Next(s, step)) && (0 < s.maxAge ==> 0 < Next(s, step).maxAge)
  {}

  /** In every run ports are numbered from 1 in the order they came, modulo 2^16, and no invalid attributes get in. */
  lemma {:induction false} RunNumbered(states: seq<Switch>, steps: seq<Step>, i: nat)
    requires Run(states, steps) && i < |states|
    ensures Numbered(states[i]) && (0 < states[0].maxAge ==> 0 < states[i].maxAge)
  {
    if i > 0 {
      RunNumbered(states, steps, i - 1);
      hide Next, Enabled, Numbered;
      StepNumbered(states[i - 1], steps[i - 1]);
    }
  }

  /** Once every started removal has finished, learned addresses point to the entry registered under their ID. */
  lemma LearnedPointsToRegistered(states: seq<Switch>, steps: seq<Step>, i: nat, k: Key)
    requires Run(states, steps) && i < |states| && states[i].removing == {}
    requires k in states[i].table && !states[i].table[k].fixed
    ensures var e := states[i].table[k];
            e.portID in states[i].ports && e.port == Some(states[i].ports[e.portID])
  {
    RunInv(states, steps, i);
    assert Backed(states[i], states[i].table[k]);
  }

  // --------------------------------------------------------- the table's log

  /** What the step does to the table, as events. */
  function Caused(s: Switch, step: Step): seq<Event>
    requires Enabled(s, step)
  {
    match step
    case Deliver(h, frame, now) =>
      (match Ingress(s.entries[h], frame, s.instanceID)
       case Admitted(f, key) =>
         AdmittedIsParsed(s.entries[h], frame, s.instanceID);
         if Multicast(SrcMAC(frame)) then []
         else [Event.Learn(Key(key, SrcMAC(frame)), s.entries[h].id, h, now)]
       case ShutPort(_) => [Event.FlushPort(s.entries[h].id)]
       case _ => [])
    case FinishRemove(h) => [Event.FlushPort(s.entries[h].id)]
    case TableStep(ev) => [ev]
    case _ => []
  }

  lemma ReplaySnoc(log: seq<Event>, ev: Event)
    ensures Replay(log + [ev]) == Apply(Replay(log), ev) && log + [] == log
  {
    assert (log + [ev])[..|log|] == log;
  }

  lemma StepReplay(s: Switch, step: Step, log: seq<Event>)
    requires Enabled(s, step) && s.table == Replay(log)
    ensures Next(s, step).table == Replay(log + Caused(s, step))
  {
    hide Replay;
    var evs := Caused(s, step);
    if evs != [] {
      assert evs == [evs[0]];
      ReplaySnoc(log, evs[0]);
    } else {
      assert log + evs == log;
    }
  }

  /** The events of the first i steps of a run. */
  function LogOf(states: seq<Switch>, steps: seq<Step>, i: nat): seq<Event>
    requires i <= |steps| && |states| == |steps| + 1
    requires forall k | 0 <= k < |steps| :: Enabled(states[k], steps[k])
  {
    if i == 0 then [] else LogOf(states, steps, i - 1) + Caused(states[i - 1], steps[i - 1])
  }

  /** In every run the table is the replay of the events the steps caused. */
  lemma {:induction false} RunReplay(states: seq<Switch>, steps: seq<Step>, i: nat)
    requires Run(states, steps) && i < |states|
    ensures states[i].table == Replay(LogOf(states, steps, i))
  {
    if i > 0 {
      RunReplay(states, steps, i - 1);
      StepReplay(states[i - 1], steps[i - 1], LogOf(states, steps, i - 1));
    }
  }

  /** So a lookup in any reachable state answers the static port in force, else the latest learn
      uncleared and in age. */
  lemma RunLookup(states: seq<Switch>, steps: seq<Step>, i: nat, k: Key, now: int)
    requires Run(states, steps) && i < |states|
    ensures var log := LogOf(states, steps, i); var found := Found(states[i].table, k, states[i].maxAge, now);
            && (forall j: nat | StaticFrom(log, k, j) :: found.Some? && found.value.portID == log[j].portID)
            && (forall j: nat | LearnedFrom(log, k, j) ::
                  found == if now - log[j].at > states[i].maxAge then None
                           else Some(Entry(log[j].portID, Some(log[j].port), log[j].at, false)))
            && (!HasStatic(log, k) && !HasLearned(log, k) ==> found == None)
  {
    hide LogOf, StaticFrom, LearnedFrom, HasStatic, HasLearned, Replay, Found;
    RunReplay(states, steps, i);
    LookupMeaning(LogOf(states, steps, i), k, states[i].maxAge, now);
  }

  // ---------------------------------------------------- delivery by reference

  /** The entry a port reference delivers from: the cached one unless it is gone, else the registered one. */
  function ResolveRef(s: Switch, id: string, cached: Option<Handle>): Option<Handle> {
    if cached.Some? && cached.value in s.entries && !s.entries[cached.value].gone then cached
    else ResolveName(s, id)
  }

  function ResolveName(s: Switch, id: string): Option<Handle> {
    if id in s.ports then Some(s.ports[id]) else None
  }

  /**
   A reference resolves as the name does, in every reachable state, except while
   the removal of its cached entry stands between unregistering and marking gone.
   */
  lemma RefAgreesWithName(states: seq<Switch>, steps: seq<Step>, i: nat, id: string, cached: Option<Handle>)
    requires Run(states, steps) && i < |states|
    requires cached.Some? ==> cached.value in states[i].entries && states[i].entries[cached.value].id == id
    ensures ResolveRef(states[i], id, cached) == ResolveName(states[i], id) <==>
            !(cached.Some? && cached.value in states[i].removing && !states[i].entries[cached.value].gone)
  {
    RunInv(states, steps, i);
  }

  // -------------------------------------------------------------- receivers

  /** How an admitted frame was forwarded: on a table hit, or flooded. */
  predicate HitsTable(s: Switch, h: Handle, frame: Frame, now: int)
    requires h in s.entries
  {
    match Ingress(s.entries[h], frame, s.instanceID)
    case Admitted(f, key) =>
      AdmittedIsParsed(s.entries[h], frame, s.instanceID);
      IsHit(TableAfter(s, h, frame, key, now), frame, key, s.maxAge, now)
    case _ => false
  }

  /** A receiver of a copy, checked against what a flood of the same frame reaches. */
  ghost predicate ProperCopy(s: Switch, h: Handle, frame: Frame, now: int, t: Handle)
    requires h in s.entries
  {
    var src := s.entries[h];
    && Ingress(src, frame, s.instanceID).Admitted? && src.stpState == Forwarding
    && var f, key := Ingress(src, frame, s.instanceID).f, Ingress(src, frame, s.instanceID).key;
    && Parse(f.data) == Some(f) && t in s.entries && t in Copies(s, h, frame, now)
    && Copies(s, h, frame, now)[t] == EgressFrame(f, key, s.entries[t].attrs)
    && !s.entries[t].gone && Reaches(src, s.entries[t], key)
    && (t in FloodSet(s, src, key) <==> t !in s.removing)
  }

  /** The table after learning is still backed. */
  lemma LearnedTableBacked(s: Switch, h: Handle, frame: Frame, key: nat, now: int, k: Key)
    requires Inv(s) && h in s.entries && !s.entries[h].gone && ETH_HEADER <= |frame|
    requires k in TableAfter(s, h, frame, key, now)
    ensures Backed(s, TableAfter(s, h, frame, key, now)[k])
  {}

  /**
   In every reachable state, every copy of a data frame goes to a live port other
   than the source, on the same VLAN, past the spanning-tree gate on both sides
   and past isolation; it is one of the ports a flood reaches exactly when it is
   not just being removed. A table hit sends at most one copy; a flood within the
   storm budget sends one to every port it reaches.
   */
  lemma CopiesProper(s: Switch, h: Handle, frame: Frame, now: int)
    requires Inv(s) && h in s.entries
    ensures forall t | t in Copies(s, h, frame, now) :: ProperCopy(s, h, frame, now, t)
    ensures HitsTable(s, h, frame, now) ==> |Copies(s, h, frame, now)| <= 1
    ensures var v := Ingress(s.entries[h], frame, s.instanceID); var e := s.entries[h];
            v.Admitted? && e.stpState == Forwarding && !HitsTable(s, h, frame, now) &&
            (e.attrs.stormPPS == 0 || Allows(e.storm, e.attrs.stormPPS, now))
            ==> Copies(s, h, frame, now).Keys == FloodSet(s, e, v.key)
    ensures s.removing == {} ==>
              var v := Ingress(s.entries[h], frame, s.instanceID);
              v.Admitted? ==> Copies(s, h, frame, now).Keys <= FloodSet(s, s.entries[h], v.key)
  {
    var src := s.entries[h];
    AdmittedIsParsed(src, frame, s.instanceID);
    match Ingress(src, frame, s.instanceID)
    case Admitted(f, key) =>
      var to := Receivers(s, h, frame, key, now);
      forall t | t in Copies(s, h, frame, now)
        ensures ProperCopy(s, h, frame, now, t)
      {
        if HitsTable(s, h, frame, now) {
          LearnedTableBacked(s, h, frame, key, now, Key(key, DstMAC(frame)));
        }
      }
      if HitsTable(s, h, frame, now) {
        assert to == {} || exists t :: to == {t};
        assert Copies(s, h, frame, now).Keys <= to;
        if t :| to == {t} { SubsetSize(Copies(s, h, frame, now).Keys, to); }
      }
    case _ =>
  }

  lemma SubsetSize(a: set<Handle>, b: set<Handle>)
    requires a <= b
    ensures |a| <= |b|
  {
    assert b == a + (b - a);
  }
}
