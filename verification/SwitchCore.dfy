/** The switch and its port references as objects updated in place, proved against the model's steps. */
module SwitchCore {
  import opened Wrappers
  import opened SwitchPorts
  import opened Storm
  import opened Fdb
  import opened Frames
  import opened SwitchModel

  class Core {
    var ports: map<string, Handle>
    var entries: map<Handle, PortEntry>
    var next: Handle
    var portNumSeq: nat
    const instanceID: nat
    const fdb: ForwardingTable
    ghost var removing: set<Handle>

    ghost function State(): Switch
      reads this, fdb
    {
      Switch(ports, entries, next, portNumSeq, fdb.m, fdb.maxAge, removing, instanceID)
    }

    constructor (instanceID: nat, maxAge: int)
      ensures State() == Start(instanceID, maxAge) && fresh(fdb)
    {
      ports, entries, next, portNumSeq, removing := map[], map[], 0, 0, {};
      this.instanceID := instanceID;
      fdb := new ForwardingTable(maxAge);
    }

    method AddPort(id: string, attrs: PortAttrs) returns (ok: bool)
      modifies this
      ensures State() == Next(old(State()), Step.AddPort(id, attrs))
      ensures ok <==> attrs.Valid() && id != "" && id !in old(ports)
      ensures ok ==> && ports == old(ports)[id := old(next)]
                     && entries == old(entries)[old(next) := PortEntry(id, attrs, false, Forwarding, portNumSeq,
                                                                       Bucket(0, 0))]
    {
      if !attrs.Valid() || id == "" || id in ports { return false; }
      portNumSeq := (portNumSeq + 1) % 65536;
      entries := entries[next := PortEntry(id, attrs, false, Forwarding, portNumSeq, Bucket(0, 0))];
      ports := ports[id := next];
      next := next + 1;
      ok := true;
    }

    /** First step of a removal; the caller goes on with MarkGone and FinishRemove on the returned entry. */
    method Unregister(id: string) returns (h: Option<Handle>)
      modifies this
      ensures State() == Next(old(State()), Step.Unregister(id))
      ensures h == if id in old(ports) then Some(old(ports)[id]) else None
    {
      h := None;
      if id in ports {
        h := Some(ports[id]);
        removing := removing + {ports[id]};
        ports := ports - {id};
      }
    }

    method MarkGone(h: Handle)
      requires Enabled(State(), Step.MarkGone(h))
      modifies this
      ensures State() == Next(old(State()), Step.MarkGone(h))
    {
      entries := entries[h := entries[h].(gone := true)];
    }

    method FinishRemove(h: Handle)
      requires Enabled(State(), Step.FinishRemove(h))
      modifies this, fdb
      ensures State() == Next(old(State()), Step.FinishRemove(h))
    {
      fdb.FlushPort(entries[h].id);
      removing := removing - {h};
    }

    /** Replaces a port's attributes; a port that moves to another VLAN loses its learned addresses. */
    method UpdatePortAttrs(id: string, attrs: PortAttrs) returns (ok: bool)
      requires Indexed(State())
      modifies this, fdb
      ensures ok <==> attrs.Valid() && id in old(ports)
      ensures var updated := Next(old(State()), SetAttrs(id, attrs));
              State() == if ok && old(entries)[old(ports)[id]].attrs.vlan != attrs.vlan
                         then Next(updated, TableStep(Event.FlushPort(id))) else updated
      ensures ok ==> id in ports && ports[id] in entries && entries[ports[id]].attrs == attrs
      ensures forall k :: k in fdb.m <==>
                && k in old(fdb.m)
                && !(ok && old(entries)[old(ports)[id]].attrs.vlan != attrs.vlan
                     && !old(fdb.m)[k].fixed && old(fdb.m)[k].portID == id)
    {
      if !attrs.Valid() || id !in ports { return false; }
      var h := ports[id];
      var vlanChanged := entries[h].attrs.vlan != attrs.vlan;
      entries := entries[h := entries[h].(attrs := attrs)];
      if vlanChanged { fdb.FlushPort(id); }
      ok := true;
    }

    /** Changes the ageing time of learned addresses. */
    method SetFDBMaxAge(maxAge: int) returns (ok: bool)
      modifies fdb
      ensures State() == Next(old(State()), SetMaxAge(maxAge)) && ok == (0 < maxAge)
    {
      if maxAge <= 0 { return false; }
      fdb.maxAge := maxAge;
      ok := true;
    }

    /** Shuts a port that heard its own probe or an unwanted BPDU. */
    method BlockPort(h: Handle)
      requires h in entries
      modifies this, fdb
      ensures entries == old(entries)[h := old(entries)[h].(attrs := old(entries)[h].attrs.(disabled := true))]
      ensures fdb.m == PortFlushed(old(fdb.m), old(entries)[h].id) && fdb.maxAge == old(fdb.maxAge)
      ensures ports == old(ports) && next == old(next) && portNumSeq == old(portNumSeq) && removing == old(removing)
    {
      if !entries[h].attrs.disabled {
        entries := entries[h := entries[h].(attrs := entries[h].attrs.(disabled := true))];
      }
      fdb.FlushPort(entries[h].id);
    }

    /** The copy a table hit sends, if its target may receive one. */
    method Unicast(src: PortEntry, e: Fdb.Entry, variants: FrameVariants) returns (outs: seq<(Handle, Frame)>)
      requires variants.Valid()
      modifies variants
      ensures Lists(outs, CopiesTo(State(), UnicastSet(State(), src, e, variants.key), variants.f, variants.key))
    {
      outs := [];
      var port := e.port;
      if port == None && e.portID in ports { port := Some(ports[e.portID]); }
      if port.Some? && port.value in entries {
        var t := entries[port.value];
        if t.id != src.id && !t.gone && t.stpState == Forwarding && EgressEligible(src.attrs, t.attrs, variants.key) {
          var d := variants.Render(t.attrs);
          outs := [(port.value, d)];
        }
      }
    }

    /** One copy to every registered port the frame may reach. */
    method Flood(src: PortEntry, variants: FrameVariants) returns (outs: seq<(Handle, Frame)>)
      requires variants.Valid() && Indexed(State())
      modifies variants
      ensures Lists(outs, CopiesTo(State(), FloodSet(State(), src, variants.key), variants.f, variants.key))
    {
      hide ListsBut, Lists, CopiesTo, FloodSet;
      outs := [];
      var todo := ports.Keys;
      ghost var copies := CopiesTo(State(), FloodSet(State(), src, variants.key), variants.f, variants.key);
      ListsNone(State(), src, variants.f, variants.key);
      while todo != {}
        invariant todo <= ports.Keys && variants.Valid() && ListsBut(outs, copies, entries, todo)
        decreases todo
      {
        var id :| id in todo;
        var t := ports[id];
        FloodMember(State(), src, variants.f, variants.key, id);
        ListsOneMore(outs, copies, entries, todo, id, t);
        if id != src.id && entries[t].stpState == Forwarding &&
           EgressEligible(src.attrs, entries[t].attrs, variants.key) {
          var d := variants.Render(entries[t].attrs);
          outs := outs + [(t, d)];
        }
        todo := todo - {id};
      }
      assert todo == {};
      ListsAll(outs, copies, entries);
    }

    /** Forwards on a hit or floods within the storm budget. */
    method Dispatch(h: Handle, frame: Frame, variants: FrameVariants, now: int) returns (outs: seq<(Handle, Frame)>)
      requires variants.Valid() && Indexed(State()) && h in entries && ETH_HEADER <= |frame|
      requires var k := Key(variants.key, DstMAC(frame)); k in fdb.m ==> fdb.m[k].portID != ""
      modifies this`entries, variants
      ensures var src := old(entries)[h];
              && entries == (if SpendsBudget(old(State()), src, frame, variants.key, now)
                             then old(entries)[h := src.(storm := Taken(src.storm, src.attrs.stormPPS, now))]
                             else old(entries))
              && Lists(outs, CopiesTo(old(State()), Targets(old(State()), src, frame, variants.key, now),
                                      variants.f, variants.key))
    {
      outs := [];
      var src := entries[h];
      if !Multicast(DstMAC(frame)) {
        var port, portID := fdb.Lookup(Key(variants.key, DstMAC(frame)), now);
        if portID != "" {
          outs := Unicast(src, Entry(portID, port, now, port == None), variants);
          return;
        }
      }
      if src.attrs.stormPPS > 0 {
        BudgetAside(State(), h, Taken(src.storm, src.attrs.stormPPS, now), src, variants.f, variants.key);
        entries := entries[h := src.(storm := Taken(src.storm, src.attrs.stormPPS, now))];
        if !Allows(src.storm, src.attrs.stormPPS, now) { return; }
      }
      outs := Flood(src, variants);
    }

    /** Learns from and forwards a frame that passed ingress. */
    method Forward(h: Handle, frame: Frame, f: FrameView, key: nat, now: int) returns (outs: seq<(Handle, Frame)>)
      requires Inv(State()) && h in entries && Ingress(entries[h], frame, instanceID) == Admitted(f, key)
      modifies this`entries, fdb
      ensures State() == Delivered(old(State()), h, frame, now)
      ensures Lists(outs, Copies(old(State()), h, frame, now))
    {
      outs := [];
      ghost var s := State();
      AdmittedIsParsed(entries[h], frame, instanceID);
      if !Multicast(SrcMAC(frame)) { fdb.Learn(Key(key, SrcMAC(frame)), entries[h].id, h, now); }
      if entries[h].stpState != Learning {
        var variants := new FrameVariants(f, key);
        if Key(key, DstMAC(frame)) in fdb.m { LearnedTableBacked(s, h, frame, key, now, Key(key, DstMAC(frame))); }
        outs := Dispatch(h, frame, variants, now);
      }
    }

    /** Switches one ingress frame; `outs` lists the copies sent, each receiver once. */
    method Deliver(h: Handle, frame: Frame, now: int) returns (outs: seq<(Handle, Frame)>)
      requires Inv(State()) && h in entries
      modifies this, fdb
      ensures State() == Delivered(old(State()), h, frame, now)
      ensures Lists(outs, Copies(old(State()), h, frame, now))
    {
      outs := [];
      match Ingress(entries[h], frame, instanceID)
      case Admitted(f, key) => outs := Forward(h, frame, f, key, now);
      case ShutPort(_) => BlockPort(h);
      case _ =>
    }
  }

  /** A port's handle into the switch: resolves its entry once and reuses it until it is gone. */
  class PortRef {
    const sw: Core
    const id: string
    var cached: Option<Handle>

    ghost predicate Valid()
      reads this, sw
    {
      cached.Some? ==> cached.value in sw.entries && sw.entries[cached.value].id == id
    }

    constructor (sw: Core, id: string)
      ensures Valid() && this.sw == sw && this.id == id && cached == None
    {
      this.sw, this.id, cached := sw, id, None;
    }

    method Deliver(frame: Frame, now: int) returns (outs: seq<(Handle, Frame)>)
      requires Valid() && Inv(sw.State())
      modifies this, sw, sw.fdb
      ensures Valid()
      ensures match ResolveRef(old(sw.State()), id, old(cached))
              case None => sw.State() == old(sw.State()) && outs == []
              case Some(h) =>
                && h in old(sw.entries) && sw.State() == Delivered(old(sw.State()), h, frame, now)
                && cached == Some(h)
                && Lists(outs, Copies(old(sw.State()), h, frame, now))
    {
      outs := [];
      var e := cached;
      if e == None || sw.entries[e.value].gone {
        if id !in sw.ports { return; }
        e := Some(sw.ports[id]);
        cached := e;
      }
      DeliveredRegistry(sw.State(), e.value, frame, now);
      outs := sw.Deliver(e.value, frame, now);
    }
  }
}
