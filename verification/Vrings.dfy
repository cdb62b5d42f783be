/** One split virtqueue of the device, with the history of what passed through it. */
module Vrings {
  import opened Wrappers
  import opened SwitchPorts
  import opened Division
  import opened Virtqueue
  import opened DescChains

  datatype Used = Used(head: nat, written: nat)

  /** The driver's ring holds the heads offered from the given one on. */
  predicate Queued(ring: seq<nat>, base: nat, offered: seq<nat>, from: nat)
    requires ring != []
  {
    forall k {:trigger offered[k]} | from <= k < |offered| :: ring[(base + k) % |ring|] == offered[k]
  }

  /** The heads in the n slots from the base on. */
  function Waiting(ring: seq<nat>, base: nat, n: nat): seq<nat>
    requires ring != []
  {
    seq(n, k requires 0 <= k => ring[(base + k) % |ring|])
  }

  lemma QueueOne(ring: seq<nat>, base: nat, offered: seq<nat>, from: nat, head: nat)
    requires ring != [] && Queued(ring, base, offered, from) && from <= |offered| < from + |ring|
    ensures Queued(ring[(base + |offered|) % |ring| := head], base, offered + [head], from)
  {
    var ring', offered' := ring[(base + |offered|) % |ring| := head], offered + [head];
    forall k | from <= k < |offered'|
      ensures ring'[(base + k) % |ring'|] == offered'[k]
    {
      if k < |offered| {
        RemaindersDiffer(base + k, base + |offered|, |ring|);
        assert offered'[k] == offered[k];
      }
    }
  }

  lemma TakeOne(ring: seq<nat>, base: nat, offered: seq<nat>, from: nat)
    requires ring != [] && Queued(ring, base, offered, from) && from < |offered|
    ensures ring[(base + from) % |ring|] == offered[from] && Queued(ring, base, offered, from + 1)
  {
  }

  /** 16-bit counters: stepping after reducing, and equality of counters less than a wrap apart. */
  lemma Counters(x: nat, y: nat, step: nat)
    requires x <= y < x + INDEX_MODULUS
    ensures (x % INDEX_MODULUS + step) % INDEX_MODULUS == (x + step) % INDEX_MODULUS
    ensures x % INDEX_MODULUS == y % INDEX_MODULUS <==> x == y
  {
  }

  /** The used ring holds the most recently returned elements, each in the slot of its place in history. */
  predicate Returned(ring: seq<Used>, base: nat, published: seq<Used>)
    requires ring != []
  {
    forall k {:trigger published[k]} | 0 <= k < |published| && |published| - |ring| <= k ::
      ring[(base + k) % |ring|] == published[k]
  }

  lemma ReturnOne(ring: seq<Used>, base: nat, published: seq<Used>, e: Used)
    requires ring != [] && Returned(ring, base, published)
    ensures Returned(ring[(base + |published|) % |ring| := e], base, published + [e])
  {
    var ring', published' := ring[(base + |published|) % |ring| := e], published + [e];
    forall k | 0 <= k < |published'| && |published'| - |ring'| <= k
      ensures ring'[(base + k) % |ring'|] == published'[k]
    {
      if k < |published| {
        RemaindersDiffer(base + k, base + |published|, |ring|);
        assert published'[k] == published[k];
      }
    }
  }

  /** A ring taken over between two indices holds the heads between them, and has returned nothing yet. */
  lemma StartsValid(ring: seq<nat>, base: nat, index: nat, used: seq<Used>, usedBase: nat)
    requires ring != [] && used != [] && base < INDEX_MODULUS && index < INDEX_MODULUS
    ensures var n := (index - base) % INDEX_MODULUS;
            (base + n) % INDEX_MODULUS == index && Queued(ring, base, Waiting(ring, base, n), 0)
    ensures Returned(used, usedBase, [])
  {
  }

  /** Chains handed back unused. */
  function Unwritten(heads: seq<nat>): (us: seq<Used>)
    ensures |us| == |heads|
  {
    seq(|heads|, i requires 0 <= i < |heads| => Used(heads[i], 0))
  }

  lemma UnwrittenSnoc(heads: seq<nat>, head: nat)
    ensures Unwritten(heads + [head]) == Unwritten(heads) + [Used(head, 0)]
  {
  }

  predicate SameHeads(us: seq<Used>, heads: seq<nat>) {
    |us| == |heads| && forall i | 0 <= i < |us| :: us[i].head == heads[i]
  }

  class Vring {
    const num: nat
    var desc: seq<Descriptor>
    var avail: seq<nat>
    var availIdx: nat
    const used: array<Used>
    var usedWord: nat
    var lastAvail: nat
    var usedIdx: nat

    ghost const availBase: nat
    ghost const usedBase: nat
    ghost var offered: seq<nat>
    ghost var taken: nat
    ghost var published: seq<Used>

    ghost predicate Indexed()
      reads this
    {
      && SizeAccepted(num) && |avail| == used.Length == num
      && InAddressSpace(desc)
      && |published| <= taken <= |offered| <= |published| + num
      && availIdx == (availBase + |offered|) % INDEX_MODULUS
      && lastAvail == (availBase + taken) % INDEX_MODULUS
      && usedIdx == (usedBase + |published|) % INDEX_MODULUS
      && Queued(avail, availBase, offered, taken)
    }

    ghost predicate Valid()
      reads this, used
    {
      Indexed() && Returned(used[..], usedBase, published)
    }

    /** Between calls: what was taken was handed back, once each and in order, and the driver can see it. */
    ghost predicate AtRest()
      reads this
    {
      && taken <= |offered|
      && SameHeads(published, offered[..taken])
      && usedWord == usedIdx
    }

    /**
     A ring as SET_VRING_BASE and SET_VRING_ADDR leave it: consumption starts at the given base,
     and the used index is the one the driver sees.
     */
    constructor (num: nat, desc: seq<Descriptor>, avail: seq<nat>, availIdx: nat, used: array<Used>,
                 usedWord: nat, base: nat)
      requires SizeAccepted(num) && |avail| == used.Length == num && InAddressSpace(desc)
      requires availIdx < INDEX_MODULUS && usedWord < INDEX_MODULUS && base < INDEX_MODULUS
      requires (availIdx - base) % INDEX_MODULUS <= num
      ensures Valid() && AtRest() && taken == 0
      ensures offered == Waiting(avail, base, (availIdx - base) % INDEX_MODULUS)
      ensures this.num == num && this.desc == desc && this.used == used
    {
      hide SizeAccepted, InAddressSpace, Queued, Returned;
      SizeBounds(num);
      StartsValid(avail, base, availIdx, used[..], usedWord);
      this.num, this.desc, this.avail, this.availIdx, this.used, this.usedWord
        := num, desc, avail, availIdx, used, usedWord;
      lastAvail, usedIdx := base, usedWord;
      availBase, usedBase := base, usedWord;
      offered, taken, published := Waiting(avail, base, (availIdx - base) % INDEX_MODULUS), 0, [];
    }

    /** The driver offers a chain. It never has more than num chains with the device. */
    method Offer(head: nat, table: seq<Descriptor>)
      requires Valid() && |offered| < |published| + num && InAddressSpace(table)
      modifies this`desc, this`avail, this`availIdx, this`offered
      ensures Valid() && (old(AtRest()) ==> AtRest())
      ensures offered == old(offered) + [head] && desc == table
    {
      hide SizeAccepted, InAddressSpace, Queued, Returned, SameHeads;
      SlotOfIndex(num, availBase + |offered|, 0);
      Counters(availBase + |offered|, availBase + |offered|, 1);
      QueueOne(avail, availBase, offered, taken, head);
      assert offered[..taken] == (offered + [head])[..taken];
      avail := avail[availIdx % num := head];
      availIdx := (availIdx + 1) % INDEX_MODULUS;
      desc := table;
      offered := offered + [head];
    }

    method PopAvail() returns (head: Option<nat>)
      requires Valid()
      modifies this`lastAvail, this`taken
      ensures Valid()
      ensures head == if old(taken) == |offered| then None else Some(offered[old(taken)])
      ensures taken == if old(taken) == |offered| then old(taken) else old(taken) + 1
    {
      hide SizeAccepted, InAddressSpace, Queued, Returned;
      SizeBounds(num);
      SlotOfIndex(num, availBase + taken, 0);
      Counters(availBase + taken, availBase + |offered|, 1);
      if lastAvail == availIdx {
        return None;
      }
      TakeOne(avail, availBase, offered, taken);
      head := Some(avail[lastAvail % num]);
      lastAvail := (lastAvail + 1) % INDEX_MODULUS;
      taken := taken + 1;
    }

    /** Puts the chains taken since back on offer. */
    method Rewind(start: nat, ghost from: nat)
      requires Valid() && |published| <= from <= taken && start == (availBase + from) % INDEX_MODULUS
      requires Queued(avail, availBase, offered, from)
      modifies this`lastAvail, this`taken
      ensures Valid() && lastAvail == start && taken == from
    {
      hide SizeAccepted, InAddressSpace, Queued, Returned;
      lastAvail := start;
      taken := from;
    }

    method SetUsedElem(slot: nat, head: nat, written: nat)
      requires Indexed()
      modifies used
      ensures used[..] == old(used[..])[(usedBase + |published| + slot) % num := Used(head, written)]
    {
      SlotOfIndex(num, usedBase + |published|, slot);
      used[(usedIdx + slot) % num] := Used(head, written);
    }

    method PublishUsed(count: nat, ghost elems: seq<Used>)
      requires Indexed() && |elems| == count && |published| + count <= taken
      requires Returned(used[..], usedBase, published + elems)
      modifies this`usedIdx, this`usedWord, this`published
      ensures Valid() && usedWord == usedIdx
      ensures published == old(published) + elems
    {
      hide SizeAccepted, InAddressSpace, Queued, Returned;
      Counters(usedBase + |published|, usedBase + |published|, count);
      usedIdx := (usedIdx + count) % INDEX_MODULUS;
      usedWord := usedIdx;
      published := published + elems;
    }

    /** Hands chains back: fills their elements, then moves the index the driver reads. */
    method Return(elems: seq<Used>)
      requires Valid() && |published| + |elems| <= taken
      modifies used, this`usedIdx, this`usedWord, this`published
      ensures Valid() && usedWord == usedIdx
      ensures published == old(published) + elems
    {
      hide SizeAccepted, InAddressSpace, Queued, Returned;
      SizeBounds(num);
      assert published + elems[..0] == published;
      for i := 0 to |elems|
        invariant Indexed() && published == old(published)
        invariant Returned(used[..], usedBase, published + elems[..i])
      {
        ReturnOne(used[..], usedBase, published + elems[..i], elems[i]);
        SetUsedElem(i, elems[i].head, elems[i].written);
        assert published + elems[..i + 1] == published + elems[..i] + [elems[i]];
      }
      assert elems[..|elems|] == elems;
      PublishUsed(|elems|, elems);
    }

    /** Between calls the two indices keep their distance, modulo their width. */
    lemma Lag()
      requires Valid() && AtRest()
      ensures (lastAvail - usedIdx) % INDEX_MODULUS == (availBase - usedBase) % INDEX_MODULUS
    {
      hide SizeAccepted, InAddressSpace, Queued, Returned;
    }

    /** Reading on from any of the last num elements, the driver finds the heads it offered, in its own order. */
    lemma InOrder(k: nat)
      requires Valid() && AtRest()
      requires k < taken <= k + num
      ensures used[(usedBase + k) % INDEX_MODULUS % num].head == offered[k]
    {
      SlotOfIndex(num, usedBase + k, 0);
      assert published[k].head == offered[..taken][k];
    }

    /** Takes one chain, copies its frame out and hands it back; reports whether there was one. */
    method DrainOne(memory: seq<Byte>, regions: seq<Region>) returns (more: bool, frame: Option<seq<Byte>>)
      requires Valid() && |published| == taken && RegionsFit(regions, |memory|)
      modifies used, this`lastAvail, this`taken, this`usedIdx, this`usedWord, this`published
      ensures Valid() && |published| == taken && (old(usedWord) == old(usedIdx) ==> usedWord == usedIdx)
      ensures more == (old(taken) < |offered|)
      ensures !more ==> taken == old(taken) && published == old(published)
      ensures more ==>
                && taken == old(taken) + 1 && published == old(published) + [Used(offered[old(taken)], 0)]
                && frame == FrameOf(memory, regions, desc, offered[old(taken)])
    {
      hide SizeAccepted, InAddressSpace, Queued, Returned, FrameOf;
      var head := PopAvail();
      if head.None? {
        return false, None;
      }
      frame := CopyOut(memory, regions, desc, head.value);
      Return([Used(head.value, 0)]);
      more := true;
    }

    lemma Facts()
      requires Valid()
      ensures InAddressSpace(desc) && |avail| != 0
      ensures |published| <= taken <= |offered| && lastAvail == (availBase + taken) % INDEX_MODULUS
      ensures Queued(avail, availBase, offered, taken)
    {
    }

    lemma RestLength()
      requires AtRest()
      ensures |published| == taken <= |offered|
    {
    }

    /** Takes every chain on offer, copies its frame out and hands it back. */
    method DrainTX(memory: seq<Byte>, regions: seq<Region>) returns (frames: seq<seq<Byte>>, notify: bool)
      requires Valid() && AtRest() && RegionsFit(regions, |memory|)
      modifies used, this`lastAvail, this`taken, this`usedIdx, this`usedWord, this`published
      ensures Valid() && AtRest() && taken == |offered|
      ensures published == old(published) + Unwritten(offered[old(taken)..])
      ensures frames == Carries(memory, regions, desc, offered[old(taken)..])
      ensures notify == (old(taken) < |offered|)
    {
      hide SizeAccepted, InAddressSpace, Queued, Returned, SameHeads, FrameOf, Carries, Unwritten, RegionsFit;
      hide Vring.Indexed, Vring.Valid, Drained;
      RestLength();
      ghost var from := taken;
      frames := [];
      var count := 0;
      DrainedNone(memory, regions, desc, offered, from, published);
      while true
        invariant Valid() && usedWord == usedIdx
        invariant from <= taken <= |offered| && |published| == taken && count == taken - from
        invariant Drained(memory, regions, desc, offered, from, taken, old(published), published, frames)
        decreases |offered| - taken
      {
        ghost var p := published;
        var more, frame := DrainOne(memory, regions);
        if !more {
          break;
        }
        DrainedOne(memory, regions, desc, offered, from, taken - 1, frame, old(published), p, frames);
        if frame.Some? {
          frames := frames + [frame.value];
        }
        count := count + 1;
      }
      DrainedAll(memory, regions, desc, offered, from, old(published), published, frames);
      notify := count > 0;
    }
  }

  /** Draining the heads in this stretch of history turned p0 into p and produced these frames. */
  predicate Drained(memory: seq<Byte>, regions: seq<Region>, table: seq<Descriptor>, offered: seq<nat>,
                    from: nat, upto: nat, p0: seq<Used>, p: seq<Used>, frames: seq<seq<Byte>>)
    requires RegionsFit(regions, |memory|) && from <= upto <= |offered|
  {
    && p == p0 + Unwritten(offered[from..upto])
    && frames == Carries(memory, regions, table, offered[from..upto])
  }

  lemma DrainedNone(memory: seq<Byte>, regions: seq<Region>, table: seq<Descriptor>, offered: seq<nat>,
                    from: nat, p0: seq<Used>)
    requires RegionsFit(regions, |memory|) && from <= |offered|
    ensures Drained(memory, regions, table, offered, from, from, p0, p0, [])
  {
    assert offered[from..from] == [] && Unwritten([]) == [];
  }

  lemma DrainedOne(memory: seq<Byte>, regions: seq<Region>, table: seq<Descriptor>, offered: seq<nat>,
                   from: nat, upto: nat, frame: Option<seq<Byte>>,
                   p0: seq<Used>, p: seq<Used>, frames: seq<seq<Byte>>)
    requires RegionsFit(regions, |memory|) && from <= upto < |offered|
    requires frame == FrameOf(memory, regions, table, offered[upto])
    requires Drained(memory, regions, table, offered, from, upto, p0, p, frames)
    ensures Drained(memory, regions, table, offered, from, upto + 1, p0, p + [Used(offered[upto], 0)],
                    if frame.None? then frames else frames + [frame.value])
  {
    hide FrameOf, Carries, Unwritten;
    var heads, head := offered[from..upto], offered[upto];
    CarriesSnoc(memory, regions, table, heads, head);
    UnwrittenSnoc(heads, head);
    assert offered[from..upto + 1] == heads + [head];
    assert p0 + (Unwritten(heads) + [Used(head, 0)]) == p + [Used(head, 0)];
  }

  lemma DrainedAll(memory: seq<Byte>, regions: seq<Region>, table: seq<Descriptor>, offered: seq<nat>,
                   from: nat, p0: seq<Used>, p: seq<Used>, frames: seq<seq<Byte>>)
    requires RegionsFit(regions, |memory|) && from <= |offered| && SameHeads(p0, offered[..from])
    requires Drained(memory, regions, table, offered, from, |offered|, p0, p, frames)
    ensures SameHeads(p, offered[..|offered|])
    ensures p == p0 + Unwritten(offered[from..]) && frames == Carries(memory, regions, table, offered[from..])
  {
    assert offered[from..|offered|] == offered[from..];
    assert offered[..|offered|] == offered[..from] + offered[from..];
    HeadsJoin(p0, offered[..from], Unwritten(offered[from..]), offered[from..]);
  }

  lemma HeadsJoin(us: seq<Used>, heads: seq<nat>, more: seq<Used>, rest: seq<nat>)
    requires SameHeads(us, heads) && SameHeads(more, rest)
    ensures SameHeads(us + more, heads + rest)
  {
  }

  lemma ResolvedFits(regions: seq<Region>, table: seq<Descriptor>, head: nat, memory: nat)
    requires RegionsFit(regions, memory) && Resolved(regions, table, head).Some?
    ensures SegmentsFit(Resolved(regions, table, head).value.readable, memory)
    ensures SegmentsFit(Resolved(regions, table, head).value.writable, memory)
  {
    WalkFits(regions, table, head, MAX_CHAIN, NO_SEGMENTS, memory);
  }

  /** The frame of the chain at this head, if the chain is well-formed and its size in range. */
  function FrameOf(memory: seq<Byte>, regions: seq<Region>, table: seq<Descriptor>, head: nat): Option<seq<Byte>>
    requires RegionsFit(regions, |memory|)
  {
    var c := Resolved(regions, table, head);
    if c.None? then None
    else
      ResolvedFits(regions, table, head, |memory|);
      Carried(memory, c.value)
  }

  method CopyOut(memory: seq<Byte>, regions: seq<Region>, table: seq<Descriptor>, head: nat)
      returns (frame: Option<seq<Byte>>)
    requires RegionsFit(regions, |memory|) && InAddressSpace(table)
    ensures frame == FrameOf(memory, regions, table, head)
  {
    var c := Resolve(regions, table, head);
    if c.None? {
      return None;
    }
    ResolvedFits(regions, table, head, |memory|);
    frame := GatherTX(memory, c.value);
  }

  /** The frames of the chains at these heads, in order. */
  function Carries(memory: seq<Byte>, regions: seq<Region>, table: seq<Descriptor>, heads: seq<nat>): seq<seq<Byte>>
    requires RegionsFit(regions, |memory|)
  {
    if heads == [] then []
    else
      var frame := FrameOf(memory, regions, table, heads[|heads| - 1]);
      Carries(memory, regions, table, heads[..|heads| - 1]) + if frame.None? then [] else [frame.value]
  }

  lemma CarriesSnoc(memory: seq<Byte>, regions: seq<Region>, table: seq<Descriptor>, heads: seq<nat>, head: nat)
    requires RegionsFit(regions, |memory|)
    ensures var frame := FrameOf(memory, regions, table, head);
            Carries(memory, regions, table, heads + [head])
            == Carries(memory, regions, table, heads) + if frame.None? then [] else [frame.value]
  {
    assert (heads + [head])[..|heads|] == heads;
  }
}
