/**
 What a delivery does with a frame, read off its bytes and the ports' attributes: which frames are
 let in, who gets a copy and how it looks, what is learned, and what is spent.
 */
module Delivery {
  import opened Wrappers
  import opened SwitchPorts
  import opened Storm
  import opened Fdb
  import opened Frames
  import opened SwitchModel

  // ------------------------------------------------------------------ frames

  /** The frame carries an 802.1Q tag. */
  predicate Tagged(frame: Frame) { 14 <= |frame| && frame[12] == 0x81 && frame[13] == 0 }

  /** Header and tag are complete. */
  predicate Whole(frame: Frame) { 14 <= |frame| && (Tagged(frame) ==> 18 <= |frame|) }

  function Vid(frame: Frame): nat
    requires Whole(frame) && Tagged(frame)
  {
    (frame[14] as int * 256 + frame[15]) % 4096
  }

  /** The VLAN a frame belongs to at a port: the tag's on a trunk, the port's own elsewhere; 0 is untagged. */
  function VlanAt(a: PortAttrs, frame: Frame): nat
    requires Whole(frame)
  {
    if a.vlan != 4095 then a.vlan else if Tagged(frame) then Vid(frame) else 0
  }

  /** The frame without its tag. */
  function Bare(frame: Frame): Frame
    requires Whole(frame)
  {
    if Tagged(frame) then frame[..12] + frame[16..] else frame
  }

  predicate ReservedDst(frame: Frame)
    requires Whole(frame)
  {
    frame[..5] == [0x01, 0x80, 0xc2, 0, 0] && frame[5] < 16
  }

  /** A BPDU: the bridge group address, a length field, and the spanning-tree LLC. */
  predicate BpduBytes(frame: Frame) {
    && 17 <= |frame| && frame[..6] == [0x01, 0x80, 0xc2, 0, 0, 0] && frame[12] as int * 256 + frame[13] <= 1500
    && frame[14..17] == [0x42, 0x42, 0x03]
  }

  /** A loop probe this switch sent. */
  predicate ProbeBytes(frame: Frame, instanceID: nat) {
    && 26 <= |frame| && frame[..6] == [0x03, 0x67, 0x76, 0x73, 0x77, 0] && frame[12..14] == [0x88, 0xB5]
    && FromBE(frame[14..18]) == 0x6776_7377 && FromBE(frame[18..26]) == instanceID
  }

  lemma ParseIff(frame: Frame)
    ensures Parse(frame).Some? <==> Whole(frame)
    ensures Whole(frame) ==>
              Parse(frame) == Some(FrameView(frame, Tagged(frame), if Tagged(frame) then Vid(frame) else 0))
  {}

  lemma ControlBytes(frame: Frame, instanceID: nat)
    requires Whole(frame)
    ensures ReservedGroup(DstMAC(frame)) <==> ReservedDst(frame)
    ensures IsBPDU(frame) <==> BpduBytes(frame)
    ensures DstMAC(frame) == LOOP_PROBE_DST && OwnLoopProbe(frame, instanceID) <==> ProbeBytes(frame, instanceID)
  {
    hide FromBE;
    var five := frame[..5];
    assert five == [frame[0], frame[1], frame[2], frame[3], frame[4]];
    assert 17 <= |frame| ==> frame[14..17] == [frame[14], frame[15], frame[16]];
    assert frame[12..14] == [frame[12], frame[13]];
  }

  // ----------------------------------------------------------------- ingress

  /** The port's own state lets frames in at all. */
  predicate OpenPort(e: PortEntry) { !e.gone && !e.attrs.disabled }

  /**
   A data frame is let in exactly when it is whole, the port is there, enabled and past Listening,
   the address is neither reserved nor an own probe, an access port sees no tag, and the source is
   the one the port is locked to, if any.
   */
  predicate LetIn(e: PortEntry, frame: Frame, instanceID: nat) {
    && Whole(frame) && OpenPort(e) && !ProbeBytes(frame, instanceID) && !ReservedDst(frame)
    && (e.stpState == Learning || e.stpState == Forwarding)
    && (e.attrs.vlan == 4095 || !Tagged(frame))
    && (e.attrs.securityMAC == None || e.attrs.securityMAC == Some(frame[6..12]))
  }

  lemma IngressIff(e: PortEntry, frame: Frame, instanceID: nat)
    ensures var v := Ingress(e, frame, instanceID);
            && (v.Admitted? <==> LetIn(e, frame, instanceID))
            && (v.Admitted? ==> v.f.data == frame && v.key == VlanAt(e.attrs, frame))
            && (v == ShutPort("loop") <==> Whole(frame) && OpenPort(e) && ProbeBytes(frame, instanceID))
            && (v == ShutPort("bpdu_guard") <==> Whole(frame) && OpenPort(e) && e.attrs.bpduGuard && BpduBytes(frame))
            && (v == ToTree <==> Whole(frame) && OpenPort(e) && !e.attrs.bpduGuard && e.attrs.stp && BpduBytes(frame))
            && (v.ShutPort? ==> v.reason == "loop" || v.reason == "bpdu_guard")
  {
    ParseIff(frame);
    if Whole(frame) {
      ControlBytes(frame, instanceID);
      assert BpduBytes(frame) ==> ReservedDst(frame) by {
        assert BpduBytes(frame) ==> frame[..5] == frame[..6][..5] && frame[5] == frame[..6][5];
      }
      assert ProbeBytes(frame, instanceID) ==> frame[0] == frame[..6][0];
      assert ReservedDst(frame) ==> frame[0] == frame[..5][0];
      hide ReservedGroup, IsBPDU, OwnLoopProbe, ReservedDst, BpduBytes, ProbeBytes;
      assert "loop"[0] != "bpdu_guard"[0];
    }
  }

  // ------------------------------------------------------------------ copies

  /** A port with entry z may be sent a frame of this VLAN that came in on src. */
  predicate MayGet(src: PortEntry, z: PortEntry, vlan: nat) {
    && z.id != src.id && !z.gone && z.stpState == Forwarding && !z.attrs.disabled
    && !(src.attrs.isolated && z.attrs.isolated)
    && (z.attrs.vlan == 4095 || z.attrs.vlan == vlan)
  }

  /** How that port sees it: tagged with its VLAN on a trunk, unless that is the untagged one; bare elsewhere. */
  ghost predicate Rendered(frame: Frame, vlan: nat, z: PortAttrs, out: Frame)
    requires Whole(frame)
  {
    if z.vlan == 4095 && vlan != 0
    then && Whole(out) && Tagged(out) && Vid(out) == vlan % 4096
         && Bare(out) == Bare(frame) && (Tagged(frame) ==> out == frame)
    else out == Bare(frame)
  }

  lemma RenderedIs(a: PortAttrs, frame: Frame, z: PortAttrs)
    requires Whole(frame) && (a.vlan == 4095 || !Tagged(frame))
    requires Parse(frame).Some?
    ensures var vlan := VlanAt(a, frame);
            Rendered(frame, vlan, z, EgressFrame(Parse(frame).value, vlan, z))
  {
    ParseIff(frame);
    var vlan := VlanAt(a, frame);
    if z.vlan == 4095 && vlan != 0 && !Tagged(frame) {
      var out := TaggedForm(Parse(frame).value, vlan);
      assert out[..12] == frame[..12] && out[16..] == frame[12..];
      assert frame == frame[..12] + frame[12..];
      TagBytes(vlan);
    }
  }

  lemma TagBytes(vlan: nat)
    ensures (vlan % 4096 / 256 * 256 + vlan % 256) % 4096 == vlan % 4096
  {
    var r := vlan % 4096;
    assert vlan == 4096 * (vlan / 4096) + r;
    assert vlan % 256 == r % 256;
  }

  lemma ReachesIff(src: PortEntry, z: PortEntry, vlan: nat)
    ensures Reaches(src, z, vlan) && !z.gone <==> MayGet(src, z, vlan)
  {}

  /**
   Every copy of a delivery: the frame was let in on a forwarding port, and the receiver is another
   live, enabled, forwarding port of the frame's VLAN or a trunk, not isolated from the source; it
   sees the frame as such a port must.
   */
  lemma CopyMeaning(s: Switch, h: Handle, frame: Frame, now: int, t: Handle)
    requires Inv(s) && h in s.entries && t in Copies(s, h, frame, now)
    ensures LetIn(s.entries[h], frame, s.instanceID) && s.entries[h].stpState == Forwarding
    ensures t in s.entries && t != h && MayGet(s.entries[h], s.entries[t], VlanAt(s.entries[h].attrs, frame))
    ensures Rendered(frame, VlanAt(s.entries[h].attrs, frame), s.entries[t].attrs, Copies(s, h, frame, now)[t])
  {
    var e := s.entries[h];
    hide Inv, Copies, Ingress, FloodSet;
    CopiesProper(s, h, frame, now);
    assert ProperCopy(s, h, frame, now, t);
    IngressIff(e, frame, s.instanceID);
    ParseIff(frame);
    ReachesIff(e, s.entries[t], VlanAt(e.attrs, frame));
    RenderedIs(e.attrs, frame, s.entries[t].attrs);
  }

  /** So VLANs are separate: between ports that are not trunks, only within one; from a trunk, only by the tag. */
  lemma VlansSeparate(s: Switch, h: Handle, frame: Frame, now: int, t: Handle)
    requires Inv(s) && h in s.entries && t in Copies(s, h, frame, now)
    ensures t in s.entries && t != h && !s.entries[h].attrs.disabled && !s.entries[t].attrs.disabled
    ensures var a, z := s.entries[h].attrs, s.entries[t].attrs;
            && !(a.isolated && z.isolated)
            && (a.vlan != 4095 && z.vlan != 4095 ==> a.vlan == z.vlan)
            && (a.vlan == 4095 && z.vlan != 4095 ==>
                  if Tagged(frame) then 18 <= |frame| && (frame[14] as int * 256 + frame[15]) % 4096 == z.vlan
                  else z.vlan == 0)
            && (a.securityMAC.Some? ==> 14 <= |frame| && frame[6..12] == a.securityMAC.value)
  {
    hide Inv, Copies, Rendered;
    CopyMeaning(s, h, frame, now, t);
  }

  /** The source's storm budget lets a flood through. */
  predicate InBudget(e: PortEntry, now: int) {
    e.attrs.stormPPS == 0 || Allows(e.storm, e.attrs.stormPPS, now)
  }

  /**
   The table entry that decides about a frame from h, if one does: none about a group address or an
   aged one. The source is learned first, so a frame to its own source address is for its own port.
   */
  function Decides(s: Switch, h: Handle, frame: Frame, now: int): Option<Fdb.Entry>
    requires h in s.entries && Whole(frame)
  {
    var k := Key(VlanAt(s.entries[h].attrs, frame), frame[..6]);
    if frame[0] % 2 == 1 then None
    else if frame[..6] == frame[6..12] && !(k in s.table && s.table[k].fixed) then
      if s.maxAge < 0 then None else Some(Entry(s.entries[h].id, Some(h), now, false))
    else if k !in s.table || (!s.table[k].fixed && now - s.table[k].lastSeen > s.maxAge) then None
    else Some(s.table[k])
  }

  lemma DecidesIs(s: Switch, h: Handle, frame: Frame, now: int)
    requires h in s.entries && LetIn(s.entries[h], frame, s.instanceID)
    ensures var vlan := VlanAt(s.entries[h].attrs, frame); var m := TableAfter(s, h, frame, vlan, now);
            && (IsHit(m, frame, vlan, s.maxAge, now) <==> Decides(s, h, frame, now).Some?)
            && (Decides(s, h, frame, now).Some? ==>
                  Found(m, Key(vlan, DstMAC(frame)), s.maxAge, now) == Decides(s, h, frame, now))
  {
    var vlan := VlanAt(s.entries[h].attrs, frame);
    var k, own := Key(vlan, frame[..6]), Key(vlan, frame[6..12]);
    assert frame[0] == frame[..6][0] && frame[6] == frame[6..12][0];
    assert frame[..6] == frame[6..12] <==> k == own;
    hide LetIn, VlanAt;
  }

  lemma TargetsIs(s: Switch, h: Handle, frame: Frame, now: int)
    requires h in s.entries && LetIn(s.entries[h], frame, s.instanceID)
    requires s.entries[h].stpState == Forwarding
    ensures var e, vlan := s.entries[h], VlanAt(s.entries[h].attrs, frame);
            Receivers(s, h, frame, vlan, now) ==
            match Decides(s, h, frame, now)
            case Some(entry) => UnicastSet(s, e, entry, vlan)
            case None => if InBudget(e, now) then FloodSet(s, e, vlan) else {}
  {
    var e, vlan := s.entries[h], VlanAt(s.entries[h].attrs, frame);
    DecidesIs(s, h, frame, now);
    hide LetIn, VlanAt, Decides, TableAfter, IsHit, Found;
    var t := s.(table := TableAfter(s, h, frame, vlan, now));
    assert FloodSet(t, e, vlan) == FloodSet(s, e, vlan);
    assert forall entry :: UnicastSet(t, e, entry, vlan) == UnicastSet(s, e, entry, vlan);
  }

  lemma CopiesKeys(s: Switch, h: Handle, frame: Frame, now: int)
    requires h in s.entries && LetIn(s.entries[h], frame, s.instanceID)
    ensures forall t :: t in Copies(s, h, frame, now) <==>
                        t in s.entries && t in Receivers(s, h, frame, VlanAt(s.entries[h].attrs, frame), now)
  {
    IngressIff(s.entries[h], frame, s.instanceID);
    hide Ingress, Receivers, LetIn;
  }

  /**
   A frame the table does not decide about (a group address, an unknown or an aged one) goes to
   exactly the registered ports that may get it, or to none when the storm budget is spent.
   */
  lemma FloodIff(s: Switch, h: Handle, frame: Frame, now: int, t: Handle)
    requires Inv(s) && h in s.entries && LetIn(s.entries[h], frame, s.instanceID)
    requires s.entries[h].stpState == Forwarding && Decides(s, h, frame, now) == None
    ensures t in Copies(s, h, frame, now) <==>
            && InBudget(s.entries[h], now) && t in s.entries && Registered(s, t)
            && MayGet(s.entries[h], s.entries[t], VlanAt(s.entries[h].attrs, frame))
  {
    var e, vlan := s.entries[h], VlanAt(s.entries[h].attrs, frame);
    CopiesKeys(s, h, frame, now);
    TargetsIs(s, h, frame, now);
    hide Copies, Receivers, LetIn, Decides, InBudget;
    if t in s.entries { ReachesIff(e, s.entries[t], vlan); }
  }

  /** The port a table entry names: the one it was learned on, or the one registered under a static entry's ID. */
  function Named(s: Switch, entry: Fdb.Entry): Option<Handle> {
    if entry.port.Some? then entry.port
    else if entry.portID in s.ports then Some(s.ports[entry.portID]) else None
  }

  /** A frame the table decides about goes to the port its entry names, if that may get it, and to no other. */
  lemma UnicastIff(s: Switch, h: Handle, frame: Frame, now: int, t: Handle)
    requires Inv(s) && h in s.entries && LetIn(s.entries[h], frame, s.instanceID)
    requires s.entries[h].stpState == Forwarding && Decides(s, h, frame, now).Some?
    ensures t in Copies(s, h, frame, now) <==>
            && t in s.entries && Named(s, Decides(s, h, frame, now).value) == Some(t)
            && MayGet(s.entries[h], s.entries[t], VlanAt(s.entries[h].attrs, frame))
  {
    var e, vlan := s.entries[h], VlanAt(s.entries[h].attrs, frame);
    CopiesKeys(s, h, frame, now);
    TargetsIs(s, h, frame, now);
    hide Copies, Receivers, LetIn, Decides, Inv;
    if t in s.entries { ReachesIff(e, s.entries[t], vlan); }
  }

  // ---------------------------------------------------------- state afterwards

  /**
   What a delivery leaves: a frame let in has its individual source address recorded on its port,
   now, unless a static entry holds it; a flood spends budget, nothing else does; a port that sees
   an own probe or an unwanted BPDU is disabled and loses its learned addresses.
   */
  lemma DeliveryLeaves(s: Switch, h: Handle, frame: Frame, now: int)
    requires h in s.entries
    ensures var e, t := s.entries[h], Delivered(s, h, frame, now);
            if LetIn(e, frame, s.instanceID) then
              var k := Key(VlanAt(e.attrs, frame), frame[6..12]);
              && (t.table == if frame[6] % 2 == 1 || (k in s.table && s.table[k].fixed) then s.table
                             else s.table[k := Entry(e.id, Some(h), now, false)])
              && t == s.(table := t.table, entries := t.entries)
              && (t.entries == s.entries
                  || t.entries == s.entries[h := e.(storm := Taken(e.storm, e.attrs.stormPPS, now))])
            else if Whole(frame) && OpenPort(e)
                    && (ProbeBytes(frame, s.instanceID) || (e.attrs.bpduGuard && BpduBytes(frame)))
            then t == s.(entries := s.entries[h := e.(attrs := e.attrs.(disabled := true))],
                         table := map k | k in s.table && (s.table[k].fixed || s.table[k].portID != e.id) :: s.table[k])
            else t == s
  {
    IngressIff(s.entries[h], frame, s.instanceID);
    hide Ingress, ProbeBytes, BpduBytes, Whole, OpenPort, VlanAt;
  }

  /** Budget is spent exactly by frames that the table does not decide about, on a port that has one. */
  lemma SpendsIff(s: Switch, h: Handle, frame: Frame, now: int)
    requires h in s.entries && LetIn(s.entries[h], frame, s.instanceID)
    ensures var e := s.entries[h];
            Delivered(s, h, frame, now).entries ==
            if e.stpState == Forwarding && e.attrs.stormPPS > 0 && Decides(s, h, frame, now) == None
            then s.entries[h := e.(storm := Taken(e.storm, e.attrs.stormPPS, now))] else s.entries
  {
    IngressIff(s.entries[h], frame, s.instanceID);
    DecidesIs(s, h, frame, now);
    hide Ingress, LetIn, VlanAt, Decides, TableAfter, IsHit, Found;
  }

  // -------------------------------------------------------------- whole runs

  /**
   In any state of any run: a frame for an address whose latest learn stands and is in age goes to the
   port that address was learned on, if that may get it, and to no other.
   */
  lemma FollowsLearning(states: seq<Switch>, steps: seq<Step>, i: nat, h: Handle, frame: Frame, now: int, j: nat,
                        t: Handle)
    requires Run(states, steps) && i < |states| && h in states[i].entries
    requires var s := states[i];
             && LetIn(s.entries[h], frame, s.instanceID) && s.entries[h].stpState == Forwarding
             && frame[0] % 2 == 0 && frame[..6] != frame[6..12]
    requires LearnedFrom(LogOf(states, steps, i), Key(VlanAt(states[i].entries[h].attrs, frame), frame[..6]), j)
    requires now - LogOf(states, steps, i)[j].at <= states[i].maxAge
    ensures var s := states[i];
            t in Copies(s, h, frame, now) <==>
            && t in s.entries && t == LogOf(states, steps, i)[j].port
            && MayGet(s.entries[h], s.entries[t], VlanAt(s.entries[h].attrs, frame))
  {
    var s := states[i];
    var vlan := VlanAt(s.entries[h].attrs, frame);
    hide Run, LetIn, Inv, Copies, LearnedFrom, LogOf, MayGet;
    RunInv(states, steps, i);
    RunLookup(states, steps, i, Key(vlan, frame[..6]), now);
    assert Decides(s, h, frame, now) == Found(s.table, Key(vlan, frame[..6]), s.maxAge, now);
    UnicastIff(s, h, frame, now, t);
  }

  /** A frame for an address nothing in the run's history stands for is flooded. */
  lemma FloodsUnknown(states: seq<Switch>, steps: seq<Step>, i: nat, h: Handle, frame: Frame, now: int, t: Handle)
    requires Run(states, steps) && i < |states| && h in states[i].entries
    requires var s := states[i];
             && LetIn(s.entries[h], frame, s.instanceID) && s.entries[h].stpState == Forwarding
             && frame[..6] != frame[6..12]
    requires var k := Key(VlanAt(states[i].entries[h].attrs, frame), frame[..6]); var log := LogOf(states, steps, i);
             frame[0] % 2 == 1 || (!HasStatic(log, k) && !HasLearned(log, k))
    ensures var s := states[i];
            t in Copies(s, h, frame, now) <==>
            && InBudget(s.entries[h], now) && t in s.entries && Registered(s, t)
            && MayGet(s.entries[h], s.entries[t], VlanAt(s.entries[h].attrs, frame))
  {
    var s := states[i];
    var vlan := VlanAt(s.entries[h].attrs, frame);
    hide Run, LetIn, Inv, Copies, HasLearned, HasStatic, LogOf, MayGet, InBudget;
    RunInv(states, steps, i);
    RunLookup(states, steps, i, Key(vlan, frame[..6]), now);
    assert Decides(s, h, frame, now) == None;
    FloodIff(s, h, frame, now, t);
  }
}
