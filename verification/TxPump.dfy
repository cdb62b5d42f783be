/**
 The transmit ring's control state and the pump that serves it. One critical section of
 the device, one system call of the pump or one act of the guest is one step; the steps
 interleave in any order.
 */
module TxPump {
  import opened Wrappers

  /** A kick file the device holds: an eventfd under a handle of the device's own. */
  datatype File = File(id: nat, event: nat)

  /** A pump goroutine is about to drain, blocked reading its kick file, or about to hand over. */
  datatype Phase = Draining | Reading | Leaving
  datatype Pump = Pump(file: File, phase: Phase)

  /**
   mem, sized, laid: memory table, ring size and ring addresses are known. counts: eventfd
   counters. offered, drained: chains queued by the guest and taken by the device.
   retired: eventfds replaced as kick. kicked: for each eventfd, the chains queued when it
   was last written while not retired.
   */
  datatype Tx = Tx(mem: bool, sized: bool, laid: bool, protoOn: bool, enabled: bool, started: bool,
                   pumpRunning: bool, kick: Option<File>, pumps: seq<Pump>,
                   counts: map<nat, nat>, closed: set<nat>, offered: nat, drained: nat,
                   retired: set<nat>, kicked: map<nat, nat>)
  {
    function Count(event: nat): nat { if event in counts then counts[event] else 0 }

    predicate Open(f: File) { f.id !in closed }

    function Rung(event: nat): Tx { this.(counts := counts[event := Count(event) + 1]) }
  }

  // ------------------------------------------------------------------- steps

  /** Starts the ring once all it needs is there: a new pump, or a poke for the one that runs. */
  function Evaluated(s: Tx): Tx {
    if s.started || !s.mem || !s.sized || !s.laid || s.kick.None? || (s.protoOn && !s.enabled) then s
    else if !s.pumpRunning then
      s.(started := true, pumpRunning := true, pumps := s.pumps + [Pump(s.kick.value, Draining)])
    else s.(started := true).Rung(s.kick.value.event)
  }

  /** The current kick file, if any, is closed and its eventfd retired. */
  function KickClosed(s: Tx): Tx {
    if s.kick.None? then s
    else s.(started := false, kick := None,
            closed := s.closed + {s.kick.value.id}, retired := s.retired + {s.kick.value.event})
  }

  function Stopped(s: Tx): Tx { KickClosed(s).(started := false, laid := false, enabled := false) }

  function KickReplaced(s: Tx, f: Option<File>): Tx {
    var t := KickClosed(s).(kick := f);
    if f.None? then t else t.(retired := t.retired - {f.value.event})
  }

  function KickSet(s: Tx, f: Option<File>): Tx { Evaluated(KickReplaced(s, f)) }

  function MemSet(s: Tx): Tx { Evaluated((if s.mem then Stopped(s) else s).(mem := true)) }

  function EnableSet(s: Tx, on: bool): Tx {
    var t := s.(enabled := on);
    if on then Evaluated(t) else t.(started := false)
  }

  /** The pump's pass over the ring, under the lock. */
  function Passed(s: Tx, i: nat): Tx
    requires i < |s.pumps|
  {
    var t := s.(pumps := s.pumps[i := s.pumps[i].(phase := Reading)]);
    if s.started && s.mem then t.(drained := s.offered) else t
  }

  /** The pump's read returns: with the counter, or with an error because the file is closed. */
  function Woken(s: Tx, i: nat): Tx
    requires i < |s.pumps|
  {
    var f := s.pumps[i].file;
    if s.Open(f) then
      s.(counts := s.counts[f.event := 0], pumps := s.pumps[i := Pump(f, Draining)])
    else s.(pumps := s.pumps[i := Pump(f, Leaving)])
  }

  /** The pump's exit, under the lock: hand over to a fresh pump if the ring is live. */
  function HandedOver(s: Tx, i: nat): Tx
    requires i < |s.pumps|
  {
    var rest := s.pumps[..i] + s.pumps[i + 1..];
    if s.started && s.kick.Some? then
      s.(pumpRunning := true, pumps := rest + [Pump(s.kick.value, Draining)])
    else s.(pumpRunning := false, pumps := rest)
  }

  datatype Step =
    | Enqueue | Kick(event: nat)
    | SetMem | SetNum | SetAddr | SetFeatures(protoOn: bool) | SetKick(file: Option<File>)
    | SetCall | SetEnable(on: bool)
    | Stop | Close
    | Pass(i: nat) | Wake(i: nat) | Leave(i: nat)

  predicate CanPass(s: Tx, i: nat) { i < |s.pumps| && s.pumps[i].phase == Draining }

  predicate CanWake(s: Tx, i: nat) {
    && i < |s.pumps| && s.pumps[i].phase == Reading
    && (!s.Open(s.pumps[i].file) || 0 < s.Count(s.pumps[i].file.event))
  }

  predicate CanLeave(s: Tx, i: nat) { i < |s.pumps| && s.pumps[i].phase == Leaving }

  /** A kick file handed to the device is a new one, though its eventfd may be known. */
  predicate Fresh(s: Tx, f: File) { s.Open(f) && (s.kick.Some? ==> s.kick.value.id != f.id) }

  predicate Enabled(s: Tx, a: Step) {
    match a
    case SetAddr => s.mem && s.sized
    case SetKick(f) => f.Some? ==> Fresh(s, f.value)
    case Pass(i) => CanPass(s, i)
    case Wake(i) => CanWake(s, i)
    case Leave(i) => CanLeave(s, i)
    case _ => true
  }

  function Next(s: Tx, a: Step): Tx
    requires Enabled(s, a)
  {
    match a
    case Enqueue => s.(offered := s.offered + 1)
    case Kick(e) => if e in s.retired then s.Rung(e) else s.Rung(e).(kicked := s.kicked[e := s.offered])
    case SetMem => MemSet(s)
    case SetNum => s.(sized := true)
    case SetAddr => Evaluated(s.(laid := true))
    case SetFeatures(on) => s.(protoOn := on)
    case SetKick(f) => KickSet(s, f)
    case SetCall => Evaluated(s)
    case SetEnable(on) => EnableSet(s, on)
    case Stop => Stopped(s)
    case Close => Stopped(s).(mem := false)
    case Pass(i) => Passed(s, i)
    case Wake(i) => Woken(s, i)
    case Leave(i) => HandedOver(s, i)
  }

  const INITIAL := Tx(false, false, false, false, false, false, false, None, [], map[], {}, 0, 0, {}, map[])

  // --------------------------------------------------------------- invariant

  /** The eventfds whose kicks the ring has to answer for: the current one and those it replaced. */
  predicate Answers(s: Tx, event: nat) { event in s.retired || (s.kick.Some? && s.kick.value.event == event) }

  /** Every chain that was queued when such an eventfd was written has been taken. */
  predicate CaughtUp(s: Tx) {
    forall e <- s.kicked :: Answers(s, e) ==> s.kicked[e] <= s.drained
  }

  /** The pump sleeps on the current kick file: nothing will wake it but a new kick. */
  predicate Asleep(s: Tx, p: Pump) { p.phase == Reading && s.kick == Some(p.file) && s.Count(p.file.event) == 0 }

  predicate OnePump(s: Tx) {
    && |s.pumps| == (if s.pumpRunning then 1 else 0)
    && (forall p <- s.pumps :: s.kick == Some(p.file) || !s.Open(p.file))
  }

  predicate Inv(s: Tx) {
    && OnePump(s)
    && (s.started ==> s.mem && s.sized && s.laid && s.kick.Some? && s.pumpRunning)
    && (s.kick.Some? ==> s.Open(s.kick.value) && s.kick.value.event !in s.retired)
    && (forall p <- s.pumps | p.phase == Leaving :: !s.Open(p.file))
    && s.drained <= s.offered
    && (forall e <- s.kicked :: s.kicked[e] <= s.offered)
    && (s.started ==> forall p <- s.pumps | Asleep(s, p) :: CaughtUp(s))
  }

  /** Closing the kick file leaves every pump on a closed file. */
  lemma ClosedInv(s: Tx)
    requires Inv(s)
    ensures Inv(KickClosed(s)) && !KickClosed(s).started && KickClosed(s).kick.None?
  {
    var t := KickClosed(s);
    assert t.pumps == s.pumps;
    forall p <- t.pumps
      ensures !t.Open(p.file)
    {
    }
  }

  /** A ring that is not started may change in any way that keeps its pumps and counts its kicks. */
  lemma PausedInv(s: Tx, t: Tx)
    requires Inv(s) && !t.started && t.pumps == s.pumps && t.pumpRunning == s.pumpRunning
    requires t.kick == s.kick && t.closed == s.closed && t.retired == s.retired
    requires t.offered == s.offered && t.drained == s.drained && t.kicked == s.kicked
    ensures Inv(t)
  {
  }

  lemma EvaluatedInv(s: Tx)
    requires Inv(s)
    ensures Inv(Evaluated(s))
  {
  }

  /** The ring with its new kick file, before it is evaluated. */
  lemma KickReplacedInv(s: Tx, f: Option<File>)
    requires Inv(s) && (f.Some? ==> Fresh(s, f.value))
    ensures Inv(KickReplaced(s, f))
  {
    ClosedInv(s);
    var t, w := KickClosed(s), KickReplaced(s, f);
    forall p <- w.pumps
      ensures !w.Open(p.file)
    {
      assert p in t.pumps;
    }
  }

  lemma PassInv(s: Tx)
    requires Inv(s) && CanPass(s, 0)
    ensures Inv(Passed(s, 0))
  {
    var p := s.pumps[0];
    assert p in s.pumps;
    assert Passed(s, 0).pumps == [p.(phase := Reading)];
  }

  lemma WakeInv(s: Tx)
    requires Inv(s) && CanWake(s, 0)
    ensures Inv(Woken(s, 0))
  {
    hide CaughtUp;
    var p := s.pumps[0];
    assert p in s.pumps;
    assert Woken(s, 0).pumps == [p.(phase := if s.Open(p.file) then Draining else Leaving)];
  }

  lemma LeaveInv(s: Tx)
    requires Inv(s) && CanLeave(s, 0)
    ensures Inv(HandedOver(s, 0))
  {
    assert HandedOver(s, 0).pumps == if s.started then [Pump(s.kick.value, Draining)] else [];
  }

  lemma EnqueueInv(s: Tx)
    requires Inv(s)
    ensures Inv(s.(offered := s.offered + 1))
  {
    var t := s.(offered := s.offered + 1);
    assert forall p <- s.pumps :: Asleep(t, p) <==> Asleep(s, p);
    assert CaughtUp(t) <==> CaughtUp(s);
  }

  lemma RungInv(s: Tx, e: nat)
    requires Inv(s)
    ensures Inv(s.Rung(e)) && (s.kick.Some? && s.kick.value.event == e ==> forall p <- s.pumps :: !Asleep(s.Rung(e), p))
  {
    var t := s.Rung(e);
    assert forall p <- s.pumps | Asleep(t, p) :: p.file.event != e && Asleep(s, p);
    assert CaughtUp(t) <==> CaughtUp(s);
  }

  lemma KickInv(s: Tx, e: nat)
    requires Inv(s) && e !in s.retired
    ensures Inv(s.Rung(e).(kicked := s.kicked[e := s.offered]))
  {
    RungInv(s, e);
    var r := s.Rung(e);
    var t := r.(kicked := s.kicked[e := s.offered]);
    assert forall p <- s.pumps :: Asleep(t, p) <==> Asleep(r, p);
    if !Answers(s, e) {
      assert CaughtUp(r) ==> CaughtUp(t);
    }
  }

  /** Only the first pump can take a step, there being one at most. */
  lemma FirstPump(s: Tx, i: nat)
    requires Inv(s) && i < |s.pumps|
    ensures i == 0
  {
  }

  lemma ControlInv(s: Tx, a: Step)
    requires Inv(s) && Enabled(s, a)
    requires a.SetMem? || a.SetAddr? || a.SetEnable? || a.Stop? || a.Close?
    ensures Inv(Next(s, a))
  {
    hide Inv, Evaluated, KickClosed;
    ClosedInv(s);
    var t := KickClosed(s);
    var stopped := t.(started := false, laid := false, enabled := false);
    match a {
      case SetMem =>
        if s.mem {
          PausedInv(t, stopped.(mem := true));
          EvaluatedInv(stopped.(mem := true));
        } else {
          WiderInv(s, s.(mem := true));
          EvaluatedInv(s.(mem := true));
        }
      case SetAddr =>
        WiderInv(s, s.(laid := true));
        EvaluatedInv(s.(laid := true));
      case SetEnable(on) =>
        WiderInv(s, s.(enabled := on));
        EvaluatedInv(s.(enabled := on));
        PausedInv(s, s.(enabled := on, started := false));
      case Stop => PausedInv(t, stopped);
      case Close => PausedInv(t, stopped.(mem := false));
    }
  }

  /** Every step keeps the invariant. */
  lemma StepInv(s: Tx, a: Step)
    requires Inv(s) && Enabled(s, a)
    ensures Inv(Next(s, a))
  {
    hide Inv, Evaluated, KickClosed, Passed, Woken, HandedOver, KickReplaced, MemSet, EnableSet, Stopped, Tx.Rung;
    match a {
      case Enqueue => EnqueueInv(s);
      case Kick(e) => RungInv(s, e); if e !in s.retired { KickInv(s, e); }
      case SetNum => WiderInv(s, s.(sized := true));
      case SetFeatures(on) => WiderInv(s, s.(protoOn := on));
      case SetCall => EvaluatedInv(s);
      case SetKick(f) => KickReplacedInv(s, f); EvaluatedInv(KickReplaced(s, f));
      case Pass(i) => FirstPump(s, i); PassInv(s);
      case Wake(i) => FirstPump(s, i); WakeInv(s);
      case Leave(i) => FirstPump(s, i); LeaveInv(s);
      case _ => ControlInv(s, a);
    }
  }

  /** Learning more about the ring does not disturb it. */
  lemma WiderInv(s: Tx, t: Tx)
    requires Inv(s) && t == s.(mem := t.mem, sized := t.sized, laid := t.laid,
                               protoOn := t.protoOn, enabled := t.enabled)
    requires (s.mem ==> t.mem) && (s.sized ==> t.sized) && (s.laid ==> t.laid)
    ensures Inv(t)
  {
  }

  predicate Run(run: seq<Step>, states: seq<Tx>) {
    && |states| == |run| + 1 && states[0] == INITIAL
    && forall i | 0 <= i < |run| :: Enabled(states[i], run[i]) && states[i + 1] == Next(states[i], run[i])
  }

  lemma {:induction false} RunInv(run: seq<Step>, states: seq<Tx>, n: nat)
    requires Run(run, states) && n <= |run|
    ensures Inv(states[n])
  {
    hide Inv, Next;
    if n == 0 {
      InitialInv();
    } else {
      RunInv(run, states, n - 1);
      StepInv(states[n - 1], run[n - 1]);
    }
  }

  lemma InitialInv()
    ensures Inv(INITIAL)
  {
  }

  /**
   In every interleaving, a started ring has exactly one pump, and if that pump sleeps on
   the current kick file, every chain kicked for has been taken.
   */
  lemma NoLostWakeup(run: seq<Step>, states: seq<Tx>)
    requires Run(run, states)
    ensures var s := states[|run|];
            s.started ==>
              && |s.pumps| == 1
              && (Asleep(s, s.pumps[0]) ==> CaughtUp(s))
  {
    RunInv(run, states, |run|);
    var s := states[|run|];
    if s.started { assert s.pumps[0] in s.pumps; }
  }

  // --------------------------------------------------------- starting and stopping

  /** All a ring needs to run. */
  predicate Complete(s: Tx) { s.mem && s.sized && s.laid && s.kick.Some? && (s.protoOn ==> s.enabled) }

  /** The steps after which the device considers starting the ring. */
  predicate Considers(a: Step) {
    a.SetMem? || a.SetAddr? || a.SetKick? || a.SetCall? || (a.SetEnable? && a.on)
  }

  /** The steps that stop it, whatever else. */
  predicate Halts(a: Step) { a.Stop? || a.Close? || (a.SetEnable? && !a.on) }

  /** t knows what s knows, and as many chains were queued and taken. */
  predicate SameKnown(s: Tx, t: Tx) {
    && t.mem == s.mem && t.sized == s.sized && t.laid == s.laid && t.protoOn == s.protoOn
    && t.enabled == s.enabled && t.kick == s.kick && t.closed == s.closed
    && t.offered == s.offered && t.drained == s.drained
  }

  lemma EvaluatedStarts(s: Tx)
    ensures SameKnown(s, Evaluated(s)) && (Evaluated(s).started <==> s.started || Complete(s))
  {}

  lemma ClosedKick(s: Tx)
    requires Inv(s)
    ensures !KickClosed(s).started && KickClosed(s).kick == None
    ensures SameKnown(s.(kick := None, closed := if s.kick.None? then s.closed else s.closed + {s.kick.value.id}),
                      KickClosed(s))
  {}

  lemma StartedNeeds(s: Tx)
    requires Inv(s)
    ensures s.started ==> s.mem && s.laid && s.kick.Some?
  {}

  /** A step that forgets addresses, enabling and kick file. */
  predicate Wipes(s: Tx, a: Step) { (a.SetMem? && s.mem) || a.Stop? || a.Close? }

  /** What a step leaves known and closed, how many chains are queued and taken, and whether the ring runs. */
  predicate Sets(s: Tx, a: Step, t: Tx) {
    && (t.mem <==> a.SetMem? || (s.mem && !a.Close?))
    && (t.sized <==> a.SetNum? || s.sized)
    && (t.laid <==> a.SetAddr? || (s.laid && !Wipes(s, a)))
    && (t.enabled <==> if a.SetEnable? then a.on else s.enabled && !Wipes(s, a))
    && (t.protoOn <==> if a.SetFeatures? then a.protoOn else s.protoOn)
    && (t.kick == if a.SetKick? then a.file else if Wipes(s, a) then None else s.kick)
    && (t.closed == if (a.SetKick? || Wipes(s, a)) && s.kick.Some? then s.closed + {s.kick.value.id} else s.closed)
    && t.offered == (if a.Enqueue? then s.offered + 1 else s.offered)
    && t.drained == (if a.Pass? && s.started then s.offered else s.drained)
    && (t.started <==> (Considers(a) && Complete(t)) || (s.started && !Halts(a) && !a.SetMem? && !a.SetKick?))
  }

  lemma MemSets(s: Tx)
    requires Inv(s)
    ensures Sets(s, SetMem, MemSet(s))
  {
    hide Inv, Evaluated, KickClosed, Tx.Open;
    ClosedKick(s);
    StartedNeeds(s);
    EvaluatedStarts((if s.mem then Stopped(s) else s).(mem := true));
  }

  lemma KickSets(s: Tx, f: Option<File>)
    requires Inv(s) && (f.Some? ==> Fresh(s, f.value))
    ensures Sets(s, SetKick(f), KickSet(s, f))
  {
    hide Inv, Evaluated, KickClosed, Fresh, Tx.Open;
    ClosedKick(s);
    EvaluatedStarts(KickReplaced(s, f));
  }

  lemma AddrSets(s: Tx)
    requires Inv(s)
    ensures Sets(s, SetAddr, Evaluated(s.(laid := true))) && Sets(s, SetCall, Evaluated(s))
  {
    hide Inv, Evaluated, Tx.Open;
    EvaluatedStarts(s.(laid := true));
    EvaluatedStarts(s);
  }

  lemma EnableSets(s: Tx, on: bool)
    requires Inv(s)
    ensures Sets(s, SetEnable(on), EnableSet(s, on))
  {
    hide Inv, Evaluated, Tx.Open;
    EvaluatedStarts(s.(enabled := on));
  }

  lemma StopSets(s: Tx)
    requires Inv(s)
    ensures Sets(s, Stop, Stopped(s)) && Sets(s, Close, Stopped(s).(mem := false))
  {
    hide Inv, KickClosed, Tx.Open;
    ClosedKick(s);
  }

  /** A kick, and the pump's waking and leaving, leave all of that as it is. */
  lemma SetsNothing(s: Tx, a: Step, t: Tx)
    requires (a.Kick? || a.Wake? || a.Leave?) && SameKnown(s, t) && t.started == s.started
    ensures Sets(s, a, t)
  {}

  lemma WokenKnows(s: Tx, i: nat)
    requires i < |s.pumps|
    ensures SameKnown(s, Woken(s, i)) && Woken(s, i).started == s.started
  {
    hide Tx.Open;
    var f := s.pumps[i].file;
    if s.Open(f) {
      assert Woken(s, i) == s.(counts := s.counts[f.event := 0], pumps := s.pumps[i := Pump(f, Draining)]);
    } else {
      assert Woken(s, i) == s.(pumps := s.pumps[i := Pump(f, Leaving)]);
    }
  }

  lemma HandedKnows(s: Tx, i: nat)
    requires i < |s.pumps|
    ensures SameKnown(s, HandedOver(s, i)) && HandedOver(s, i).started == s.started
  {
    var rest := s.pumps[..i] + s.pumps[i + 1..];
    if s.started && s.kick.Some? {
      assert HandedOver(s, i) == s.(pumpRunning := true, pumps := rest + [Pump(s.kick.value, Draining)]);
    } else {
      assert HandedOver(s, i) == s.(pumpRunning := false, pumps := rest);
    }
  }

  lemma PumpSets(s: Tx, i: nat)
    requires i < |s.pumps|
    ensures Sets(s, Wake(i), Woken(s, i)) && Sets(s, Leave(i), HandedOver(s, i))
  {
    hide Sets, SameKnown, Woken, HandedOver;
    WokenKnows(s, i);
    HandedKnows(s, i);
    SetsNothing(s, Wake(i), Woken(s, i));
    SetsNothing(s, Leave(i), HandedOver(s, i));
  }

  lemma RungSets(s: Tx, e: nat)
    ensures Sets(s, Kick(e), s.Rung(e)) && Sets(s, Kick(e), s.Rung(e).(kicked := s.kicked[e := s.offered]))
  {
    hide Sets, Tx.Open;
    SetsNothing(s, Kick(e), s.Rung(e));
    SetsNothing(s, Kick(e), s.Rung(e).(kicked := s.kicked[e := s.offered]));
  }

  lemma PassSets(s: Tx, i: nat)
    requires Inv(s) && i < |s.pumps|
    ensures Sets(s, Pass(i), Passed(s, i))
  {
    hide Inv, Tx.Open;
    StartedNeeds(s);
  }

  /**
   What every step sets and forgets. A ring runs after a step exactly if the step considers starting
   it and it is then complete, or it ran before and the step neither stops it nor replaces its
   memory table or kick file; chains are taken only by a pass over a ring that runs.
   */
  lemma StepSets(s: Tx, a: Step)
    requires Inv(s) && Enabled(s, a)
    ensures Sets(s, a, Next(s, a))
  {
    hide Inv, Sets, Evaluated, MemSet, KickSet, EnableSet, Stopped, Passed, Woken, HandedOver, Tx.Rung;
    match a {
      case SetMem => MemSets(s);
      case SetAddr => AddrSets(s);
      case SetKick(f) => KickSets(s, f);
      case SetCall => AddrSets(s);
      case SetEnable(on) => EnableSets(s, on);
      case Stop => StopSets(s);
      case Close => StopSets(s);
      case Pass(i) => PassSets(s, i);
      case Wake(i) => PumpSets(s, i);
      case Leave(i) => PumpSets(s, i);
      case Kick(e) => RungSets(s, e);
      case _ => PlainSets(s, a);
    }
  }

  lemma PlainSets(s: Tx, a: Step)
    requires a.Enqueue? || a.SetNum? || a.SetFeatures?
    ensures Sets(s, a, Next(s, a))
  {
    hide Evaluated, MemSet, KickSet, EnableSet, Stopped, Passed, Woken, HandedOver;
    match a
    case Enqueue => assert Next(s, a) == s.(offered := s.offered + 1);
    case SetNum => assert Next(s, a) == s.(sized := true);
    case SetFeatures(on) => assert Next(s, a) == s.(protoOn := on);
  }

  /** The front end's usual messages, in their usual order. */
  function Handshake(f: File): seq<Step> {
    [SetFeatures(true), SetMem, SetNum, SetAddr, SetKick(Some(f)), SetEnable(true)]
  }

  lemma EvaluatedIs(s: Tx)
    requires !s.started && !s.pumpRunning
    ensures !Complete(s) ==> Evaluated(s) == s
    ensures Complete(s) ==>
              Evaluated(s) == s.(started := true, pumpRunning := true,
                                 pumps := s.pumps + [Pump(s.kick.value, Draining)])
  {}

  /** What each of them leaves of a fresh ring. */
  function Greeted(f: File, n: nat): Tx {
    INITIAL.(protoOn := 0 < n, mem := 1 < n, sized := 2 < n, laid := 3 < n,
             kick := if 4 < n then Some(f) else None, enabled := 5 < n, started := 5 < n, pumpRunning := 5 < n,
             pumps := if 5 < n then [Pump(f, Draining)] else [])
  }

  lemma GreetedStep(f: File, n: nat)
    requires n < 6
    ensures Enabled(Greeted(f, n), Handshake(f)[n]) && Next(Greeted(f, n), Handshake(f)[n]) == Greeted(f, n + 1)
  {
    hide Evaluated, Passed, Woken, HandedOver;
    var s := Greeted(f, n);
    var none: set<nat> := {};
    assert none - {f.event} == none && [] + [Pump(f, Draining)] == [Pump(f, Draining)];
    EvaluatedIs(s.(mem := true));
    EvaluatedIs(s.(laid := true));
    EvaluatedIs(s.(kick := Some(f)));
    EvaluatedIs(s.(enabled := true));
  }

  /** They start a fresh ring with one pump, which takes what the guest queues and kicks for. */
  lemma HandshakeStarts(f: File) returns (states: seq<Tx>)
    ensures Run(Handshake(f) + [Enqueue, Kick(f.event), Pass(0)], states)
    ensures forall i | 0 <= i < 6 :: !states[i].started && states[i].pumps == []
    ensures states[6].started && states[6].pumps == [Pump(f, Draining)]
    ensures states[9].offered == 1 && states[9].drained == 1
  {
    var s := Greeted(f, 6);
    var t := s.(offered := 1);
    var u := t.Rung(f.event).(kicked := map[f.event := 1]);
    states := seq(7, n requires 0 <= n < 7 => Greeted(f, n)) + [t, u, Passed(u, 0)];
    var run := Handshake(f) + [Enqueue, Kick(f.event), Pass(0)];
    forall n | 0 <= n < 9
      ensures Enabled(states[n], run[n]) && states[n + 1] == Next(states[n], run[n])
    {
      if n < 6 { GreetedStep(f, n); }
      hide Evaluated, MemSet, KickSet, EnableSet, Stopped, Woken, HandedOver;
    }
  }

  /** The proviso on retired eventfds is needed: a kick on a replaced one wakes nobody. */
  lemma RetiredKick(s: Tx, e: nat)
    requires Inv(s) && s.started && |s.pumps| == 1 && Asleep(s, s.pumps[0]) && e in s.retired
    ensures var t := Next(Next(s, Enqueue), Kick(e));
            t.started && t.pumps == s.pumps && Asleep(t, t.pumps[0]) && t.drained < t.offered
  {
    hide CaughtUp;
  }

  // ---------------------------------------------------- the pump left alone

  /** One step of the pump, if it has one to take. */
  function Alone(s: Tx): Tx {
    if CanPass(s, 0) then Passed(s, 0)
    else if CanWake(s, 0) then Woken(s, 0)
    else if CanLeave(s, 0) then HandedOver(s, 0)
    else s
  }

  function AloneFor(s: Tx, n: nat): Tx
    decreases n
  {
    if n == 0 then s else AloneFor(Alone(s), n - 1)
  }

  /** How many steps the pump is from sleeping on the current kick file. */
  function Distance(s: Tx): nat
    requires |s.pumps| == 1
  {
    var p := s.pumps[0];
    if !s.Open(p.file) then
      match p.phase
      case Draining => 6
      case Reading => 5
      case Leaving => 4
    else if s.Count(p.file.event) == 0 then (if p.phase == Reading then 0 else 1)
    else if p.phase == Reading then 2 else 3
  }

  lemma PumpFacts(s: Tx)
    requires Inv(s) && s.started
    ensures |s.pumps| == 1 && s.mem && s.kick.Some? && s.Open(s.kick.value)
    ensures var p := s.pumps[0];
              if s.Open(p.file) then s.kick == Some(p.file) && p.phase != Leaving else s.kick != Some(p.file)
  {
    assert s.pumps[0] in s.pumps;
  }

  lemma PassCloser(s: Tx)
    requires |s.pumps| == 1 && CanPass(s, 0)
    ensures Distance(Passed(s, 0)) < Distance(s)
  {
  }

  lemma WakeCloser(s: Tx)
    requires |s.pumps| == 1 && CanWake(s, 0)
    ensures Distance(Woken(s, 0)) < Distance(s)
  {
  }

  lemma LeaveCloser(s: Tx)
    requires |s.pumps| == 1 && CanLeave(s, 0) && !s.Open(s.pumps[0].file)
    requires s.started && s.kick.Some? && s.Open(s.kick.value)
    ensures |HandedOver(s, 0).pumps| == 1 && Distance(HandedOver(s, 0)) < Distance(s)
  {
    assert HandedOver(s, 0).pumps == [Pump(s.kick.value, Draining)];
  }

  lemma AsleepIff(s: Tx)
    requires Inv(s) && s.started && |s.pumps| == 1
    ensures Distance(s) == 0 <==> Asleep(s, s.pumps[0])
    ensures Distance(s) == 0 ==> Alone(s) == s
  {
    PumpFacts(s);
    hide Inv, CaughtUp;
  }

  lemma AloneCloser(s: Tx)
    requires Inv(s) && s.started
    ensures var t := Alone(s);
            && Inv(t) && t.started && |t.pumps| == 1 == |s.pumps| && t.offered == s.offered && t.kicked == s.kicked
            && (if Distance(s) == 0 then t == s else Distance(t) < Distance(s))
            && (Distance(s) == 0 <==> Asleep(s, s.pumps[0]))
  {
    hide Inv, CaughtUp, Distance;
    PumpFacts(s);
    AsleepIff(s);
    if CanPass(s, 0) {
      PassInv(s);
      PassCloser(s);
    } else if CanWake(s, 0) {
      WakeInv(s);
      WakeCloser(s);
    } else if CanLeave(s, 0) {
      LeaveInv(s);
      LeaveCloser(s);
    }
  }

  lemma {:induction false} AloneArrives(s: Tx, n: nat)
    requires Inv(s) && s.started && |s.pumps| == 1 && Distance(s) <= n
    ensures var t := AloneFor(s, n);
            && Inv(t) && t.started && |t.pumps| == 1 && Asleep(t, t.pumps[0])
            && t.offered == s.offered && t.kicked == s.kicked
    decreases n
  {
    hide Inv, Alone, Distance, Asleep;
    AloneCloser(s);
    if 0 < n { AloneArrives(Alone(s), n - 1); }
  }

  /** Left alone, the pump of a started ring takes every chain kicked for within six steps. */
  lemma CatchesUp(s: Tx)
    requires Inv(s) && s.started
    ensures var t := AloneFor(s, 6);
            t.started && t.offered == s.offered && t.kicked == s.kicked && CaughtUp(t)
  {
    AloneArrives(s, 6);
    var t := AloneFor(s, 6);
    assert t.pumps[0] in t.pumps;
  }

  // ------------------------------------------------------ the device's code

  class TxRing {
    var mem: bool
    var sized: bool
    var laid: bool
    var protoOn: bool
    var enabled: bool
    var started: bool
    var pumpRunning: bool
    var kick: Option<File>
    var pumps: seq<Pump>
    var counts: map<nat, nat>
    var closed: set<nat>
    var offered: nat
    var drained: nat
    ghost var retired: set<nat>
    ghost var kicked: map<nat, nat>

    ghost function State(): Tx
      reads this
    {
      Tx(mem, sized, laid, protoOn, enabled, started, pumpRunning, kick, pumps, counts, closed,
         offered, drained, retired, kicked)
    }

    method Write(event: nat)
      modifies this`counts
      ensures State() == old(State()).Rung(event)
    {
      counts := counts[event := 1 + if event in counts then counts[event] else 0];
    }

    method EvalRing()
      requires Inv(State())
      modifies this
      ensures State() == Evaluated(old(State())) && Inv(State())
      ensures started <==> old(started) || Complete(State())
    {
      hide Inv;
      EvaluatedInv(State());
      if started {
        return;
      }
      if !mem || !sized || !laid || kick.None? {
        return;
      }
      if protoOn && !enabled {
        return;
      }
      started := true;
      if !pumpRunning {
        pumpRunning := true;
        pumps := pumps + [Pump(kick.value, Draining)];
      } else {
        Write(kick.value.event);
      }
    }

    method CloseKick()
      modifies this
      ensures State() == KickClosed(old(State()))
    {
      if kick.Some? {
        started := false;
        closed := closed + {kick.value.id};
        retired := retired + {kick.value.event};
        kick := None;
      }
    }

    method StopRing()
      requires Inv(State())
      modifies this
      ensures State() == Stopped(old(State())) && Inv(State())
    {
      hide Inv;
      StepInv(State(), Stop);
      CloseKick();
      started, laid, enabled := false, false, false;
    }

    method SetVringKick(f: Option<File>)
      requires Inv(State()) && (f.Some? ==> Fresh(State(), f.value))
      modifies this
      ensures State() == KickSet(old(State()), f) && Inv(State())
    {
      hide Inv, Evaluated, KickClosed;
      KickReplacedInv(State(), f);
      CloseKick();
      kick := f;
      if f.Some? {
        retired := retired - {f.value.event};
      }
      EvalRing();
    }

    method SetVringEnable(on: bool)
      requires Inv(State())
      modifies this
      ensures State() == EnableSet(old(State()), on) && Inv(State())
    {
      hide Inv;
      StepInv(State(), SetEnable(on));
      WiderInv(State(), State().(enabled := on));
      enabled := on;
      if !enabled {
        started := false;
      } else {
        EvalRing();
      }
    }

    method SetMemTable()
      requires Inv(State())
      modifies this
      ensures State() == MemSet(old(State())) && Inv(State())
    {
      hide Inv;
      if mem {
        StopRing();
      }
      WiderInv(State(), State().(mem := true));
      mem := true;
      EvalRing();
    }

    /** A pump's pass over the ring; the frames it copies out are left to the drain itself. */
    method DrainPass(i: nat)
      requires Inv(State()) && CanPass(State(), i)
      modifies this
      ensures State() == Passed(old(State()), i) && Inv(State())
    {
      hide Inv;
      StepInv(State(), Pass(i));
      if started && mem {
        drained := offered;
      }
      pumps := pumps[i := pumps[i].(phase := Reading)];
    }

    /** A pump's last act. */
    method PumpExit(i: nat)
      requires Inv(State()) && CanLeave(State(), i)
      modifies this
      ensures State() == HandedOver(old(State()), i) && Inv(State())
    {
      hide Inv;
      StepInv(State(), Leave(i));
      pumpRunning := false;
      pumps := pumps[..i] + pumps[i + 1..];
      if started && kick.Some? {
        pumpRunning := true;
        pumps := pumps + [Pump(kick.value, Draining)];
      }
    }
  }
}
