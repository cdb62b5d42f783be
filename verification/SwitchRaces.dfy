/**
 Deliveries split at their seam: the test that the source entry is not gone, and the learning
 of the source address. A delivery holds the registry's read lock in between, but a removal
 marks its entry gone and flushes the table without that lock.
 */
module SwitchRaces {
  import opened Wrappers
  import opened SwitchPorts
  import opened Fdb
  import opened Frames
  import opened SwitchModel

  /** A delivery from entry h that passed ingress and has yet to learn key. */
  datatype Pending = Pending(h: Handle, key: Key)

  datatype Racing = Racing(sw: Switch, pending: set<Pending>)

  datatype Act =
    | Whole(step: Step)                   // any other step of the switch
    | Admit(h: Handle, frame: Frame)
    | LearnLate(p: Pending, now: int)
    | Disable(h: Handle)                  // shutting a port; its flush is a table step

  /** The steps that need the registry's write lock. */
  predicate Locks(step: Step) { step.AddPort? || step.Unregister? || step.SetAttrs? || step.SetGate? }

  predicate Admits(s: Switch, h: Handle, frame: Frame) {
    h in s.entries && Ingress(s.entries[h], frame, s.instanceID).Admitted?
    && ETH_HEADER <= |frame| && !Multicast(SrcMAC(frame))
  }

  predicate CanAct(r: Racing, a: Act) {
    match a
    case Whole(step) => Enabled(r.sw, step) && !step.Deliver? && (Locks(step) ==> r.pending == {})
    case Admit(h, frame) => Admits(r.sw, h, frame)
    case LearnLate(p, _) => p in r.pending && p.h in r.sw.entries
    case Disable(h) => h in r.sw.entries && r.pending == {}
  }

  function Acted(r: Racing, a: Act): Racing
    requires CanAct(r, a)
  {
    match a
    case Whole(step) => r.(sw := Next(r.sw, step))
    case Admit(h, frame) =>
      r.(pending := r.pending + {Pending(h, Key(Ingress(r.sw.entries[h], frame, r.sw.instanceID).key, SrcMAC(frame)))})
    case LearnLate(p, now) =>
      Racing(r.sw.(table := Learned(r.sw.table, p.key, r.sw.entries[p.h].id, p.h, now)), r.pending - {p})
    case Disable(h) =>
      var e := r.sw.entries[h];
      r.(sw := r.sw.(entries := r.sw.entries[h := e.(attrs := e.attrs.(disabled := true))]))
  }

  /** The entry's addresses have not been flushed by its removal: it is registered, or its removal is still open. */
  predicate Flushable(s: Switch, h: Handle) { Registered(s, h) || h in s.removing }

  /** A static entry holds the key, so nothing is learned. */
  predicate Masked(s: Switch, k: Key) { k in s.table && s.table[k].fixed }

  /** Learning keeps the table backed if and only if it comes before the flush of a removal, or is masked. */
  lemma LearnLateIff(r: Racing, p: Pending, now: int)
    requires Inv(r.sw) && CanAct(r, LearnLate(p, now))
    ensures Inv(Acted(r, LearnLate(p, now)).sw) <==> Flushable(r.sw, p.h) || Masked(r.sw, p.key)
  {
    var s, t := r.sw, Acted(r, LearnLate(p, now)).sw;
    SameRegistryInv(s, t);
    assert forall h :: Registered(t, h) == Registered(s, h);
    assert forall e :: Backed(t, e) == Backed(s, e);
    if !Masked(s, p.key) {
      assert Backed(t, t.table[p.key]) <==> Flushable(s, p.h);
    }
  }

  /** The learns of a run all come in time. */
  ghost predicate InTime(states: seq<Racing>, acts: seq<Act>)
    requires |states| == |acts| + 1
  {
    forall i | 0 <= i < |acts| && acts[i].LearnLate? ::
      Flushable(states[i].sw, acts[i].p.h) || Masked(states[i].sw, acts[i].p.key)
  }

  ghost predicate RaceRun(states: seq<Racing>, acts: seq<Act>) {
    && |states| == |acts| + 1
    && states[0] == Racing(Start(states[0].sw.instanceID, states[0].sw.maxAge), {})
    && forall i | 0 <= i < |acts| :: CanAct(states[i], acts[i]) && states[i + 1] == Acted(states[i], acts[i])
  }

  /** In a run whose learns come in time, every learned address points to an entry registered or being removed. */
  lemma {:induction false} InTimeInv(states: seq<Racing>, acts: seq<Act>, i: nat)
    requires RaceRun(states, acts) && InTime(states, acts) && i < |states|
    ensures Inv(states[i].sw)
  {
    if 0 < i {
      InTimeInv(states, acts, i - 1);
      hide Inv, Next, Flushable, Masked;
      var r, a := states[i - 1], acts[i - 1];
      match a
      case Whole(step) => StepInv(r.sw, step);
      case Admit(_, _) =>
      case LearnLate(p, now) => LearnLateIff(r, p, now);
      case Disable(h) => DisableInv(r, h);
    }
  }

  lemma DisableInv(r: Racing, h: Handle)
    requires Inv(r.sw) && CanAct(r, Disable(h))
    ensures Inv(Acted(r, Disable(h)).sw)
  {
    var s, t := r.sw, Acted(r, Disable(h)).sw;
    SameRegistryInv(s, t);
    assert forall g :: Registered(t, g) == Registered(s, g);
    assert forall e :: Backed(t, e) == Backed(s, e);
  }

  lemma InTimePoints(states: seq<Racing>, acts: seq<Act>, i: nat, k: Key)
    requires RaceRun(states, acts) && InTime(states, acts) && i < |states| && states[i].sw.removing == {}
    requires k in states[i].sw.table && !states[i].sw.table[k].fixed
    ensures var e := states[i].sw.table[k];
            e.portID in states[i].sw.ports && e.port == Some(states[i].sw.ports[e.portID])
  {
    InTimeInv(states, acts, i);
    assert Backed(states[i].sw, states[i].sw.table[k]);
  }

  /**
   The race: a delivery from a cached reference is admitted while its entry is being removed, the
   removal marks the entry gone and flushes, and then the delivery learns. The address is left
   pointing to an entry that is gone and no longer being removed.
   */
  lemma LateLearn(r: Racing, h: Handle, frame: Frame, now: int) returns (t: Racing, k: Key)
    requires Inv(r.sw) && h in r.sw.removing && Admits(r.sw, h, frame)
    requires !Masked(r.sw, Key(Ingress(r.sw.entries[h], frame, r.sw.instanceID).key, SrcMAC(frame)))
    ensures CanAct(r, Admit(h, frame))
    ensures var r1 := Acted(r, Admit(h, frame));
            && CanAct(r1, Whole(MarkGone(h)))
            && var r2 := Acted(r1, Whole(MarkGone(h)));
            && CanAct(r2, Whole(FinishRemove(h)))
            && var r3 := Acted(r2, Whole(FinishRemove(h)));
            && CanAct(r3, LearnLate(Pending(h, k), now)) && t == Acted(r3, LearnLate(Pending(h, k), now))
    ensures k in t.sw.table && t.sw.table[k].port == Some(h) && h in t.sw.entries && t.sw.entries[h].gone
    ensures !Flushable(t.sw, h) && !Inv(t.sw)
  {
    k := Key(Ingress(r.sw.entries[h], frame, r.sw.instanceID).key, SrcMAC(frame));
    var r1 := Acted(r, Admit(h, frame));
    var r2 := Acted(r1, Whole(MarkGone(h)));
    var r3 := Acted(r2, Whole(FinishRemove(h)));
    t := Acted(r3, LearnLate(Pending(h, k), now));
    NotRegistered(r.sw, h);
    assert !Backed(t.sw, t.sw.table[k]);
  }

  lemma NotRegistered(s: Switch, h: Handle)
    requires RegistryInv(s) && h in s.removing
    ensures h in s.entries && !Registered(s, h)
  {}
}
