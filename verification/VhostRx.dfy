/** Frames delivered into the guest's receive queue (VIRTIO 1.1, section 5.1.6.4). */
module VhostRx {
  import opened Wrappers
  import opened SwitchPorts
  import opened Virtqueue
  import opened DescChains
  import opened Scatter
  import opened Vrings

  // -------------------------------------------------------- what is to happen

  /** The writable segments of the chains at these heads, one chain after the other. */
  function Buffers(regions: seq<Region>, table: seq<Descriptor>, heads: seq<nat>): seq<Segment> {
    if heads == [] then []
    else
      var c := Resolved(regions, table, heads[|heads| - 1]);
      Buffers(regions, table, heads[..|heads| - 1]) + if c.None? then [] else c.value.writable
  }

  lemma BuffersSnoc(regions: seq<Region>, table: seq<Descriptor>, heads: seq<nat>, head: nat)
    ensures var c := Resolved(regions, table, head);
            Buffers(regions, table, heads + [head])
            == Buffers(regions, table, heads) + if c.None? then [] else c.value.writable
  {
    assert (heads + [head])[..|heads|] == heads;
  }

  /** How many of `size` bytes the first n chains take. */
  function Reached(regions: seq<Region>, table: seq<Descriptor>, heads: seq<nat>, n: nat, size: nat): (r: nat)
    requires n <= |heads|
    ensures r <= size
  {
    Min(Len(Buffers(regions, table, heads[..n])), size)
  }

  lemma ReachedGrows(regions: seq<Region>, table: seq<Descriptor>, heads: seq<nat>, n: nat, size: nat)
    requires n < |heads|
    ensures Reached(regions, table, heads, n, size) <= Reached(regions, table, heads, n + 1, size)
  {
    hide Resolved;
    assert heads[..n + 1] == heads[..n] + [heads[n]];
    BuffersSnoc(regions, table, heads[..n], heads[n]);
    var c := Resolved(regions, table, heads[n]);
    LenAdds(Buffers(regions, table, heads[..n]), if c.None? then [] else c.value.writable);
  }

  /** Whole: n chains hold everything. Short: after n chains there is no further one. Broken: chain n is malformed. */
  datatype Outcome = Whole(n: nat) | Short(n: nat) | Broken(n: nat)

  function Filling(regions: seq<Region>, table: seq<Descriptor>, heads: seq<nat>, n: nat, size: nat, mergeable: bool)
      : (out: Outcome)
    requires n <= |heads|
    ensures n <= out.n <= |heads| && (out.Broken? ==> out.n < |heads|)
    decreases |heads| - n
  {
    if Reached(regions, table, heads, n, size) == size then Whole(n)
    else if (!mergeable && n == 1) || n == |heads| then Short(n)
    else if Resolved(regions, table, heads[n]).None? then Broken(n)
    else Filling(regions, table, heads, n + 1, size, mergeable)
  }

  /** The used elements of the first n chains. */
  function Filled(regions: seq<Region>, table: seq<Descriptor>, heads: seq<nat>, n: nat, size: nat): (us: seq<Used>)
    requires n <= |heads|
    ensures |us| == n
  {
    if n == 0 then []
    else
      ReachedGrows(regions, table, heads, n - 1, size);
      var written := Reached(regions, table, heads, n, size) - Reached(regions, table, heads, n - 1, size);
      Filled(regions, table, heads, n - 1, size) + [Used(heads[n - 1], written)]
  }

  // ------------------------------------------------------------- the copying

  /** What is still to be copied: the rest of the zeroed header, then the rest of the frame. */
  function Pending(hdrLeft: nat, src: seq<Byte>): (p: seq<Byte>)
    ensures |p| == hdrLeft + |src|
  {
    Zeros(hdrLeft) + src
  }

  lemma PendingRest(hdrLeft: nat, src: seq<Byte>, n: nat)
    requires if 0 < hdrLeft then n <= hdrLeft else n <= |src|
    ensures Pending(hdrLeft, src)[..n] == if 0 < hdrLeft then Zeros(n) else src[..n]
    ensures Pending(hdrLeft, src)[n..] == if 0 < hdrLeft then Pending(hdrLeft - n, src) else Pending(0, src[n..])
  {
  }

  method CopyInto(memory: array<Byte>, at: nat, bytes: seq<Byte>)
    requires at + |bytes| <= memory.Length
    modifies memory
    ensures memory[..] == Splice(old(memory[..]), at, bytes)
  {
    hide Splice;
    SpliceNothing(memory[..], at, bytes);
    for i := 0 to |bytes|
      invariant memory[..] == Splice(old(memory[..]), at, bytes[..i])
    {
      SpliceOne(old(memory[..]), at, bytes, i);
      memory[at + i] := bytes[i];
    }
    assert bytes[..|bytes|] == bytes;
  }

  /** Fills one segment: header bytes first, then frame bytes. */
  method FillSegment(memory: array<Byte>, seg: Segment, hdrLeft0: nat, src0: seq<Byte>, hdrSeg0: Option<Segment>)
      returns (hdrLeft: nat, src: seq<Byte>, hdrSeg: Option<Segment>, written: nat)
    requires 0 < seg.len && seg.Fits(memory.Length) && Pending(hdrLeft0, src0) != []
    modifies memory
    ensures written == Min(seg.len, |Pending(hdrLeft0, src0)|)
    ensures Pending(hdrLeft, src) == Pending(hdrLeft0, src0)[written..] && hdrLeft <= hdrLeft0
    ensures memory[..] == Splice(old(memory[..]), seg.start, Pending(hdrLeft0, src0)[..written])
    ensures hdrSeg == if hdrSeg0.None? && 0 < hdrLeft0 then Some(seg) else hdrSeg0
  {
    hide Splice, Pending, Zeros;
    hdrLeft, src, hdrSeg, written := hdrLeft0, src0, hdrSeg0, 0;
    ghost var left := Pending(hdrLeft, src);
    SpliceNothing(memory[..], seg.start, left);
    while written < seg.len && hdrLeft + |src| > 0
      invariant written <= seg.len && written <= |left| && hdrLeft <= hdrLeft0
      invariant Pending(hdrLeft, src) == left[written..]
      invariant memory[..] == Splice(old(memory[..]), seg.start, left[..written])
      invariant written == 0 ==> hdrLeft == hdrLeft0 && hdrSeg == hdrSeg0
      invariant 0 < written ==> hdrSeg == if hdrSeg0.None? && 0 < hdrLeft0 then Some(seg) else hdrSeg0
      decreases |left| - written
    {
      var chunk := if 0 < hdrLeft then Zeros(Min(hdrLeft, seg.len - written)) else src[..Min(|src|, seg.len - written)];
      var n := |chunk|;
      if 0 < hdrLeft && hdrSeg.None? {
        hdrSeg := Some(Segment(seg.start + written, seg.len - written));
      }
      CopyInto(memory, seg.start + written, chunk);
      CopiedOn(old(memory[..]), seg.start, left, written, hdrLeft, src, chunk);
      if 0 < hdrLeft {
        hdrLeft := hdrLeft - n;
      } else {
        src := src[n..];
      }
      written := written + n;
    }
  }

  lemma CopiedOn(m: seq<Byte>, at: nat, left: seq<Byte>, k: nat, hdrLeft: nat, src: seq<Byte>, chunk: seq<Byte>)
    requires k + |chunk| <= |left| && at + k + |chunk| <= |m|
    requires Pending(hdrLeft, src) == left[k..]
    requires if 0 < hdrLeft then |chunk| <= hdrLeft && chunk == Zeros(|chunk|)
             else |chunk| <= |src| && chunk == src[..|chunk|]
    ensures Splice(Splice(m, at, left[..k]), at + k, chunk) == Splice(m, at, left[..k + |chunk|])
    ensures left[k + |chunk|..]
            == if 0 < hdrLeft then Pending(hdrLeft - |chunk|, src) else Pending(0, src[|chunk|..])
  {
    hide Splice, Pending, Zeros;
    PendingRest(hdrLeft, src, |chunk|);
    assert left[k..][..|chunk|] == left[k..k + |chunk|] && left[k..][|chunk|..] == left[k + |chunk|..];
    SpliceMore(m, at, left[..k], chunk);
    assert left[..k + |chunk|] == left[..k] + chunk;
  }

  lemma SpliceOne(m: seq<Byte>, at: nat, bytes: seq<Byte>, i: nat)
    requires i < |bytes| && at + |bytes| <= |m|
    ensures Splice(m, at, bytes[..i + 1]) == Splice(m, at, bytes[..i])[at + i := bytes[i]]
  {
  }

  lemma SpliceNothing(m: seq<Byte>, at: nat, left: seq<Byte>)
    requires at <= |m|
    ensures Splice(m, at, left[..0]) == m
  {
  }

  /** m0 after as much of `left` as fits has been poured over the segments. */
  function PouredOver(segs: seq<Segment>, left: seq<Byte>, m0: seq<Byte>): (m: seq<Byte>)
    requires SegmentsFit(segs, |m0|)
    ensures |m| == |m0|
  {
    var t := Trim(segs, |left|);
    TrimFits(segs, |left|, |m0|);
    Spread(m0, t, left[..Len(t)])
  }

  /** Pouring `left` over the segments turns m0 into m and leaves `rest`. */
  predicate Poured(segs: seq<Segment>, left: seq<Byte>, m0: seq<Byte>, m: seq<Byte>, rest: seq<Byte>) {
    && SegmentsFit(segs, |m0|)
    && rest == left[Len(Trim(segs, |left|))..]
    && m == PouredOver(segs, left, m0)
  }

  lemma PouredNone(left: seq<Byte>, m: seq<Byte>)
    ensures Poured([], left, m, m, left)
  {
  }

  lemma PouredLen(segs: seq<Segment>, left: seq<Byte>, m0: seq<Byte>, m: seq<Byte>, rest: seq<Byte>)
    requires Poured(segs, left, m0, m, rest)
    ensures |rest| == |left| - Min(Len(segs), |left|) && |m| == |m0|
  {
  }

  lemma PouredSegment(seg: Segment, left: seq<Byte>, m: seq<Byte>)
    requires left != [] && 0 < seg.len && seg.Fits(|m|)
    ensures var n := Min(seg.len, |left|);
            Poured([seg], left, m, Splice(m, seg.start, left[..n]), left[n..])
  {
    var n := Min(seg.len, |left|);
    TrimSnoc([], seg, |left|);
    assert [] + [seg] == [seg] && Trim([seg], |left|) == [] + [Segment(seg.start, n)];
    SpreadSnoc(m, [], [], Segment(seg.start, n), left[..n]);
    assert [] + [Segment(seg.start, n)] == [Segment(seg.start, n)] && [] + left[..n] == left[..n];
  }

  lemma PouredNothing(segs: seq<Segment>, m: seq<Byte>)
    requires SegmentsFit(segs, |m|)
    ensures Poured(segs, [], m, m, [])
  {
    TrimNothing(segs);
  }

  lemma PouredMore(a: seq<Segment>, b: seq<Segment>, left: seq<Byte>, m0: seq<Byte>, m1: seq<Byte>, mid: seq<Byte>,
                   m2: seq<Byte>, rest: seq<Byte>)
    requires Poured(a, left, m0, m1, mid) && Poured(b, mid, m1, m2, rest)
    ensures Poured(a + b, left, m0, m2, rest)
  {
    hide Len, Trim, Spread, SegmentsFit;
    PouredLen(a, left, m0, m1, mid);
    var ta := Trim(a, |left|);
    var tb := Trim(b, |mid|);
    TrimFits(a, |left|, |m0|);
    TrimFits(b, |mid|, |m0|);
    FitsJoin(a, b, |m0|);
    TrimAdds(a, b, |left|);
    LenAdds(ta, tb);
    SpreadAdds(m0, ta, left[..Len(ta)], tb, mid[..Len(tb)]);
    assert left[..Len(ta)] + mid[..Len(tb)] == left[..Len(ta + tb)];
    assert mid[Len(tb)..] == left[Len(ta + tb)..];
  }

  /** One more segment. */
  lemma PouredNext(segs: seq<Segment>, i: nat, left: seq<Byte>, m0: seq<Byte>, m: seq<Byte>, mid: seq<Byte>)
    requires i < |segs| && Poured(segs[..i], left, m0, m, mid)
    requires mid != [] && 0 < segs[i].len && segs[i].Fits(|m|)
    ensures var n := Min(segs[i].len, |mid|);
            Poured(segs[..i + 1], left, m0, Splice(m, segs[i].start, mid[..n]), mid[n..])
  {
    hide Poured, Splice;
    var n := Min(segs[i].len, |mid|);
    PouredSegment(segs[i], mid, m);
    PouredMore(segs[..i], [segs[i]], left, m0, m, mid, Splice(m, segs[i].start, mid[..n]), mid[n..]);
    assert segs[..i + 1] == segs[..i] + [segs[i]];
  }

  lemma RestFits(segs: seq<Segment>, i: nat, memory: nat)
    requires i <= |segs| && SegmentsFit(segs, memory)
    ensures SegmentsFit(segs[i..], memory)
  {
  }

  /** Once nothing is left, the other segments stay as they are. */
  lemma PouredEnd(segs: seq<Segment>, i: nat, left: seq<Byte>, m0: seq<Byte>, m: seq<Byte>)
    requires i <= |segs| && Poured(segs[..i], left, m0, m, []) && SegmentsFit(segs, |m|)
    ensures Poured(segs, left, m0, m, [])
  {
    hide Poured, SegmentsFit;
    RestFits(segs, i, |m|);
    PouredNothing(segs[i..], m);
    PouredMore(segs[..i], segs[i..], left, m0, m, [], m, []);
    assert segs == segs[..i] + segs[i..];
  }

  /** Fills the writable segments of a chain until nothing is left to copy. */
  method FillChain(memory: array<Byte>, segs: seq<Segment>, hdrLeft0: nat, src0: seq<Byte>, hdrSeg0: Option<Segment>)
      returns (hdrLeft: nat, src: seq<Byte>, hdrSeg: Option<Segment>, written: nat)
    requires SegmentsFit(segs, memory.Length) && Pending(hdrLeft0, src0) != []
    modifies memory
    ensures Poured(segs, Pending(hdrLeft0, src0), old(memory[..]), memory[..], Pending(hdrLeft, src))
    ensures written == |Pending(hdrLeft0, src0)| - |Pending(hdrLeft, src)|
    ensures hdrSeg == if hdrSeg0.None? && 0 < hdrLeft0 && segs != [] then Some(segs[0]) else hdrSeg0
    ensures segs == [] ==> hdrLeft == hdrLeft0
  {
    hide Poured, Pending;
    hdrLeft, src, hdrSeg, written := hdrLeft0, src0, hdrSeg0, 0;
    ghost var left := Pending(hdrLeft, src);
    PouredNone(left, memory[..]);
    assert segs[..0] == [];
    for i := 0 to |segs|
      invariant Poured(segs[..i], left, old(memory[..]), memory[..], Pending(hdrLeft, src))
      invariant written == |left| - |Pending(hdrLeft, src)| && Pending(hdrLeft, src) != []
      invariant hdrLeft <= hdrLeft0 && (i == 0 ==> hdrLeft == hdrLeft0 && hdrSeg == hdrSeg0)
      invariant 0 < i ==> hdrSeg == if hdrSeg0.None? && 0 < hdrLeft0 then Some(segs[0]) else hdrSeg0
    {
      ghost var m, mid := memory[..], Pending(hdrLeft, src);
      var n;
      hdrLeft, src, hdrSeg, n := FillSegment(memory, segs[i], hdrLeft, src, hdrSeg);
      written := written + n;
      PouredNext(segs, i, left, old(memory[..]), m, mid);
      if hdrLeft + |src| == 0 {
        PouredEnd(segs, i + 1, left, old(memory[..]), memory[..]);
        return;
      }
    }
    assert segs[..|segs|] == segs;
  }

  // ------------------------------------------------------------ whole frames

  function LE16(n: nat): seq<Byte> { [n % 256, n / 256 % 256] }

  /** num_buffers, stored in the header when the first segment holds the whole header. */
  function Numbered(m: seq<Byte>, segs: seq<Segment>, n: nat): (r: seq<Byte>)
    requires SegmentsFit(segs, |m|)
    ensures |r| == |m|
  {
    if segs != [] && NET_HEADER <= segs[0].len then Splice(m, segs[0].start + 10, LE16(n)) else m
  }

  method PatchCount(memory: array<Byte>, hdrSeg: Option<Segment>, n: nat, ghost segs: seq<Segment>)
    requires SegmentsFit(segs, memory.Length) && hdrSeg == if segs == [] then None else Some(segs[0])
    modifies memory
    ensures memory[..] == Numbered(old(memory[..]), segs, n)
  {
    if hdrSeg.Some? && hdrSeg.value.len >= NET_HEADER {
      CopyInto(memory, hdrSeg.value.start + 10, LE16(n));
    }
  }

  function Blanked(us: seq<Used>): (r: seq<Used>)
    ensures |r| == |us|
  {
    seq(|us|, i requires 0 <= i < |us| => us[i].(written := 0))
  }

  lemma {:induction false} FilledHeads(regions: seq<Region>, table: seq<Descriptor>, heads: seq<nat>, n: nat, size: nat)
    requires n <= |heads|
    ensures SameHeads(Filled(regions, table, heads, n, size), heads[..n])
  {
    hide Reached;
    if 0 < n {
      FilledHeads(regions, table, heads, n - 1, size);
      assert heads[..n] == heads[..n - 1] + [heads[n - 1]];
      var us := Filled(regions, table, heads, n, size);
      HeadsJoin(us[..n - 1], heads[..n - 1], us[n - 1..], [heads[n - 1]]);
      assert us == us[..n - 1] + us[n - 1..];
    }
  }

  /** Everything WriteFrame knows after n chains. */
  ghost predicate Midway(regions: seq<Region>, table: seq<Descriptor>, heads: seq<nat>, n: nat, frame: seq<Byte>,
                         m0: seq<Byte>, m: seq<Byte>, hdrLeft: nat,
                         src: seq<Byte>, hdrSeg: Option<Segment>, us: seq<Used>)
  {
    && n <= |heads|
    && var segs := Buffers(regions, table, heads[..n]);
       && Poured(segs, Pending(NET_HEADER, frame), m0, m, Pending(hdrLeft, src))
       && us == Filled(regions, table, heads, n, NET_HEADER + |frame|)
       && hdrSeg == (if segs == [] then None else Some(segs[0]))
       && (segs == [] ==> hdrLeft == NET_HEADER)
  }

  lemma MidwayStart(regions: seq<Region>, table: seq<Descriptor>, heads: seq<nat>, frame: seq<Byte>, m: seq<Byte>)
    ensures Midway(regions, table, heads, 0, frame, m, m, NET_HEADER, frame, None, [])
  {
    hide Poured, Pending;
    PouredNone(Pending(NET_HEADER, frame), m);
    assert heads[..0] == [];
  }

  /** What is still pending is what the chains did not take. */
  lemma MidwayLeft(regions: seq<Region>, table: seq<Descriptor>, heads: seq<nat>, n: nat, frame: seq<Byte>,
                   m0: seq<Byte>, m: seq<Byte>, hdrLeft: nat, src: seq<Byte>, hdrSeg: Option<Segment>, us: seq<Used>)
    requires Midway(regions, table, heads, n, frame, m0, m, hdrLeft, src, hdrSeg, us)
    ensures hdrLeft + |src| == NET_HEADER + |frame| - Reached(regions, table, heads, n, NET_HEADER + |frame|)
    ensures |m| == |m0| && SegmentsFit(Buffers(regions, table, heads[..n]), |m0|)
    ensures m == PouredOver(Buffers(regions, table, heads[..n]), Pending(NET_HEADER, frame), m0)
    ensures us == Filled(regions, table, heads, n, NET_HEADER + |frame|)
    ensures var segs := Buffers(regions, table, heads[..n]); hdrSeg == if segs == [] then None else Some(segs[0])
  {
    PouredLen(Buffers(regions, table, heads[..n]), Pending(NET_HEADER, frame), m0, m, Pending(hdrLeft, src));
  }

  lemma MidwayNext(regions: seq<Region>, table: seq<Descriptor>, heads: seq<nat>, n: nat, frame: seq<Byte>,
                   m0: seq<Byte>, m: seq<Byte>, hdrLeft: nat, src: seq<Byte>, hdrSeg: Option<Segment>, us: seq<Used>,
                   m': seq<Byte>, hdrLeft': nat, src': seq<Byte>, hdrSeg': Option<Segment>, written: nat)
    requires Midway(regions, table, heads, n, frame, m0, m, hdrLeft, src, hdrSeg, us)
    requires n < |heads| && Resolved(regions, table, heads[n]).Some?
    requires var segs := Resolved(regions, table, heads[n]).value.writable;
             && Poured(segs, Pending(hdrLeft, src), m, m', Pending(hdrLeft', src'))
             && written == |Pending(hdrLeft, src)| - |Pending(hdrLeft', src')|
             && hdrSeg' == (if hdrSeg.None? && 0 < hdrLeft && segs != [] then Some(segs[0]) else hdrSeg)
             && (segs == [] ==> hdrLeft' == hdrLeft)
    ensures Midway(regions, table, heads, n + 1, frame, m0, m', hdrLeft', src', hdrSeg',
                   us + [Used(heads[n], written)])
  {
    hide Poured, Pending, Buffers, Resolved, Min;
    var size := NET_HEADER + |frame|;
    var before, more := Buffers(regions, table, heads[..n]), Resolved(regions, table, heads[n]).value.writable;
    assert heads[..n + 1] == heads[..n] + [heads[n]];
    BuffersSnoc(regions, table, heads[..n], heads[n]);
    PouredMore(before, more, Pending(NET_HEADER, frame), m0, m, Pending(hdrLeft, src), m', Pending(hdrLeft', src'));
    PouredLen(before, Pending(NET_HEADER, frame), m0, m, Pending(hdrLeft, src));
    PouredLen(before + more, Pending(NET_HEADER, frame), m0, m', Pending(hdrLeft', src'));
  }

  /** The state after a call with the given outcome: memory, chains taken, elements handed back. */
  ghost predicate Settled(regions: seq<Region>, table: seq<Descriptor>, heads: seq<nat>, out: Outcome, frame: seq<Byte>,
                          m0: seq<Byte>, m: seq<Byte>, taken0: nat, taken: nat, p0: seq<Used>, p: seq<Used>)
    requires out.n <= |heads| && (out.Broken? ==> out.n < |heads|)
  {
    var segs := Buffers(regions, table, heads[..out.n]);
    && SegmentsFit(segs, |m0|)
    && var poured := PouredOver(segs, Pending(NET_HEADER, frame), m0);
       match out {
         case Whole(n) =>
           && m == Numbered(poured, segs, n)
           && taken == taken0 + n
           && p == p0 + Filled(regions, table, heads, n, NET_HEADER + |frame|)
         case Short(n) => m == poured && taken == taken0 && p == p0
         case Broken(n) => m == poured && taken == taken0 + n + 1 && p == p0 + Unwritten(heads[..n + 1])
       }
  }

  lemma FillingStep(regions: seq<Region>, table: seq<Descriptor>, heads: seq<nat>, n: nat, size: nat, mergeable: bool)
    requires n <= |heads|
    ensures var out := Filling(regions, table, heads, n, size, mergeable);
            if Reached(regions, table, heads, n, size) == size then out == Whole(n)
            else if (!mergeable && n == 1) || n == |heads| then out == Short(n)
            else if Resolved(regions, table, heads[n]).None? then out == Broken(n)
            else out == Filling(regions, table, heads, n + 1, size, mergeable)
  {
  }

  /** The chains taken so far, handed back unused. */
  lemma BlankedHeads(regions: seq<Region>, table: seq<Descriptor>, heads: seq<nat>, n: nat, size: nat)
    requires n < |heads|
    ensures Blanked(Filled(regions, table, heads, n, size) + [Used(heads[n], 0)]) == Unwritten(heads[..n + 1])
  {
    hide Filled;
    FilledHeads(regions, table, heads, n, size);
  }

  /** What is handed back has the heads of the chains taken. */
  lemma SettledHeads(regions: seq<Region>, table: seq<Descriptor>, offered: seq<nat>, taken0: nat, out: Outcome,
                     frame: seq<Byte>, m0: seq<Byte>, m: seq<Byte>, taken: nat, p0: seq<Used>, p: seq<Used>)
    requires taken0 <= |offered|
    requires var heads := offered[taken0..];
             && out.n <= |heads| && (out.Broken? ==> out.n < |heads|)
             && Settled(regions, table, heads, out, frame, m0, m, taken0, taken, p0, p)
    requires SameHeads(p0, offered[..taken0])
    ensures taken <= |offered| && SameHeads(p, offered[..taken])
  {
    hide PouredOver, Numbered, Pending, Filled, Buffers;
    var heads := offered[taken0..];
    if out.Whole? {
      FilledHeads(regions, table, heads, out.n, NET_HEADER + |frame|);
      HeadsJoin(p0, offered[..taken0], Filled(regions, table, heads, out.n, NET_HEADER + |frame|), heads[..out.n]);
      assert offered[..taken] == offered[..taken0] + heads[..out.n];
    } else if out.Broken? {
      HeadsJoin(p0, offered[..taken0], Unwritten(heads[..out.n + 1]), heads[..out.n + 1]);
      assert offered[..taken] == offered[..taken0] + heads[..out.n + 1];
    }
  }

  /**
   Takes chains and fills them until the frame is whole, no chain is left, or one is malformed.
   Nothing is handed back yet.
   */
  method TakeChains(v: Vring, memory: array<Byte>, regions: seq<Region>, frame: seq<Byte>, mergeable: bool)
      returns (out: Outcome, hdrSeg: Option<Segment>, us: seq<Used>)
    requires v.Valid() && RegionsFit(regions, memory.Length)
    modifies memory, v`lastAvail, v`taken
    ensures v.Valid() && old(v.taken) <= |v.offered|
    ensures var heads, size := v.offered[old(v.taken)..], NET_HEADER + |frame|;
            && out == Filling(regions, v.desc, heads, 0, size, mergeable)
            && v.taken == old(v.taken) + out.n + (if out.Broken? then 1 else 0)
            && us == Filled(regions, v.desc, heads, out.n, size) + (if out.Broken? then [Used(heads[out.n], 0)] else [])
            && var segs := Buffers(regions, v.desc, heads[..out.n]);
               && SegmentsFit(segs, memory.Length)
               && memory[..] == PouredOver(segs, Pending(NET_HEADER, frame), old(memory[..]))
               && hdrSeg == if segs == [] then None else Some(segs[0])
  {
    hide Midway, Filling, Reached, Resolved, Poured, Pending, Filled, Buffers, PouredOver,
         InAddressSpace, Min, WordSized;
    hide Vring.Indexed, Vring.Valid, Queued, Returned, SizeAccepted, RegionsFit, SegmentsFit;
    v.Facts();
    FitIsWordSized(regions, memory.Length);
    hdrSeg, us := None, [];
    var hdrLeft: nat, src := NET_HEADER, frame;
    ghost var from, heads, m0 := v.taken, v.offered[v.taken..], memory[..];
    MidwayStart(regions, v.desc, heads, frame, m0);
    while hdrLeft + |src| > 0
      invariant v.Valid() && v.taken == from + |us| && |us| <= |heads|
      invariant Midway(regions, v.desc, heads, |us|, frame, m0, memory[..], hdrLeft, src, hdrSeg, us)
      invariant Filling(regions, v.desc, heads, 0, NET_HEADER + |frame|, mergeable)
             == Filling(regions, v.desc, heads, |us|, NET_HEADER + |frame|, mergeable)
      decreases |heads| - |us|
    {
      MidwayLeft(regions, v.desc, heads, |us|, frame, m0, memory[..], hdrLeft, src, hdrSeg, us);
      FillingStep(regions, v.desc, heads, |us|, NET_HEADER + |frame|, mergeable);
      if !mergeable && |us| == 1 {
        return Short(1), hdrSeg, us;
      }
      v.Facts();
      var head := v.PopAvail();
      if head.None? {
        return Short(|us|), hdrSeg, us;
      }
      assert head.value == heads[|us|];
      var c := Resolve(regions, v.desc, head.value);
      if c.None? {
        return Broken(|us|), hdrSeg, us + [Used(head.value, 0)];
      }
      ResolvedFits(regions, v.desc, head.value, memory.Length);
      ghost var m, l, s, h := memory[..], hdrLeft, src, hdrSeg;
      var written;
      hdrLeft, src, hdrSeg, written := FillChain(memory, c.value.writable, hdrLeft, src, hdrSeg);
      MidwayNext(regions, v.desc, heads, |us|, frame, m0, m, l, s, h, us, memory[..], hdrLeft, src, hdrSeg, written);
      us := us + [Used(head.value, written)];
    }
    MidwayLeft(regions, v.desc, heads, |us|, frame, m0, memory[..], hdrLeft, src, hdrSeg, us);
    FillingStep(regions, v.desc, heads, |us|, NET_HEADER + |frame|, mergeable);
    out := Whole(|us|);
  }

  /**
   Delivers a frame into the receive queue, spread over as many chains as it needs.
   Without a whole frame's worth of buffers the queue is as it was; a malformed chain
   sends every chain taken so far back unused.
   */
  method WriteFrame(v: Vring, memory: array<Byte>, regions: seq<Region>, frame: seq<Byte>, ready: bool, mergeable: bool)
      returns (ok: bool)
    requires v.Valid() && v.AtRest() && RegionsFit(regions, memory.Length)
    modifies memory, v.used, v`lastAvail, v`taken, v`usedIdx, v`usedWord, v`published
    ensures v.Valid() && v.AtRest() && old(v.taken) <= |v.offered|
    ensures !ready || |frame| > MAX_FRAME ==>
              && !ok && memory[..] == old(memory[..]) && v.used[..] == old(v.used[..])
              && v.taken == old(v.taken) && v.published == old(v.published)
    ensures ready && |frame| <= MAX_FRAME ==>
              var heads := v.offered[old(v.taken)..];
              var out := Filling(regions, v.desc, heads, 0, NET_HEADER + |frame|, mergeable);
              && ok == out.Whole?
              && Settled(regions, v.desc, heads, out, frame, old(memory[..]), memory[..],
                         old(v.taken), v.taken, old(v.published), v.published)
              && (out.Short? ==> v.used[..] == old(v.used[..]) && v.lastAvail == old(v.lastAvail))
  {
    hide Filling, Pending, Filled, Buffers, PouredOver, Blanked, Unwritten, SameHeads, InAddressSpace;
    hide Vring.Indexed, Vring.Valid, Queued, Returned, SizeAccepted, RegionsFit, SegmentsFit, Numbered;
    v.RestLength();
    v.Facts();
    if |frame| > MAX_FRAME || !ready {
      return false;
    }
    var start := v.lastAvail;
    ghost var from, heads, m0, p0 := v.taken, v.offered[v.taken..], memory[..], v.published;
    var out, hdrSeg, us := TakeChains(v, memory, regions, frame, mergeable);
    match out {
      case Whole(n) =>
        PatchCount(memory, hdrSeg, |us|, Buffers(regions, v.desc, heads[..n]));
        v.Return(us);
      case Short(n) =>
        v.Rewind(start, from);
      case Broken(n) =>
        BlankedHeads(regions, v.desc, heads, n, NET_HEADER + |frame|);
        v.Return(Blanked(us));
    }
    SettledHeads(regions, v.desc, v.offered, from, out, frame, m0, memory[..], v.taken, p0, v.published);
    ok := out.Whole?;
  }

  // ---------------------------------------------------------- what it means

  /** Chain i is well-formed and needed, and another one may follow it. */
  predicate Passed(regions: seq<Region>, table: seq<Descriptor>, heads: seq<nat>, i: nat, size: nat, mergeable: bool)
    requires i < |heads|
  {
    && Resolved(regions, table, heads[i]).Some?
    && Reached(regions, table, heads, i, size) < size
    && (mergeable || i == 0)
  }

  predicate GoesOn(regions: seq<Region>, table: seq<Descriptor>, heads: seq<nat>, n: nat, size: nat, mergeable: bool)
    requires n <= |heads|
  {
    forall i | 0 <= i < n :: Passed(regions, table, heads, i, size, mergeable)
  }

  /** The three outcomes, told without following the loop. */
  lemma {:induction false} OutcomeIff(regions: seq<Region>, table: seq<Descriptor>, heads: seq<nat>, size: nat,
                                      mergeable: bool, n: nat)
    requires n <= |heads|
    ensures var out := Filling(regions, table, heads, 0, size, mergeable);
            && (out == Whole(n) <==>
                  && GoesOn(regions, table, heads, n, size, mergeable)
                  && Reached(regions, table, heads, n, size) == size)
            && (out == Short(n) <==>
                  && GoesOn(regions, table, heads, n, size, mergeable)
                  && Reached(regions, table, heads, n, size) < size
                  && (n == |heads| || (!mergeable && n == 1)))
            && (out == Broken(n) <==>
                  && n < |heads| && GoesOn(regions, table, heads, n, size, mergeable)
                  && Reached(regions, table, heads, n, size) < size && (mergeable || n == 0)
                  && Resolved(regions, table, heads[n]).None?)
  {
    hide Resolved, Reached;
    FillingGoesOn(regions, table, heads, 0, size, mergeable);
    var out := Filling(regions, table, heads, 0, size, mergeable);
    if GoesOn(regions, table, heads, n, size, mergeable) {
      FillingReaches(regions, table, heads, n, size, mergeable);
    }
  }

  /** The loop gets to chain n when every chain before it is well-formed and not enough. */
  lemma {:induction false} FillingReaches(regions: seq<Region>, table: seq<Descriptor>, heads: seq<nat>, n: nat,
                                          size: nat, mergeable: bool)
    requires n <= |heads| && GoesOn(regions, table, heads, n, size, mergeable)
    ensures Filling(regions, table, heads, 0, size, mergeable) == Filling(regions, table, heads, n, size, mergeable)
  {
    hide Resolved, Reached;
    if 0 < n {
      FillingReaches(regions, table, heads, n - 1, size, mergeable);
      assert Passed(regions, table, heads, n - 1, size, mergeable);
    }
  }

  /** The loop stops at the first chain that is enough, missing or malformed. */
  lemma {:induction false} FillingGoesOn(regions: seq<Region>, table: seq<Descriptor>, heads: seq<nat>, n: nat,
                                         size: nat, mergeable: bool)
    requires n <= |heads| && GoesOn(regions, table, heads, n, size, mergeable)
    ensures var out := Filling(regions, table, heads, n, size, mergeable);
            && GoesOn(regions, table, heads, out.n, size, mergeable)
            && (out.Whole? <==> Reached(regions, table, heads, out.n, size) == size)
            && (out.Short? ==> out.n == |heads| || (!mergeable && out.n == 1))
            && (out.Broken? ==> Resolved(regions, table, heads[out.n]).None? && (mergeable || out.n != 1))
    decreases |heads| - n
  {
    hide Resolved, Reached;
    assert 1 < n ==> Passed(regions, table, heads, 1, size, mergeable);
    if Filling(regions, table, heads, n, size, mergeable).n > n {
      FillingGoesOn(regions, table, heads, n + 1, size, mergeable);
    }
  }

  /** Where the driver finds the received bytes: of each element's chain, as much as the element says. */
  function Received(regions: seq<Region>, table: seq<Descriptor>, us: seq<Used>): seq<Segment> {
    if us == [] then []
    else
      var u := us[|us| - 1];
      var c := Resolved(regions, table, u.head);
      Received(regions, table, us[..|us| - 1]) + if c.None? then [] else Trim(c.value.writable, u.written)
  }

  lemma ReceivedSnoc(regions: seq<Region>, table: seq<Descriptor>, us: seq<Used>, u: Used)
    ensures var c := Resolved(regions, table, u.head);
            Received(regions, table, us + [u])
            == Received(regions, table, us) + if c.None? then [] else Trim(c.value.writable, u.written)
  {
    hide Resolved, Trim;
    assert (us + [u])[..|us|] == us;
  }

  /** The next chain takes what the ones before it left over. */
  lemma TrimNext(before: seq<Segment>, more: seq<Segment>, size: nat)
    requires forall s <- more :: 0 < s.len
    ensures Min(Len(before), size) <= Min(Len(before + more), size)
    ensures Trim(before + more, size)
            == Trim(before, size) + Trim(more, Min(Len(before + more), size) - Min(Len(before), size))
  {
    hide Trim, Len;
    LenAdds(before, more);
    TrimAdds(before, more, size);
    TrimExact(more, size - Len(Trim(before, size)));
  }

  lemma {:induction false} ReceivedIs(regions: seq<Region>, table: seq<Descriptor>, heads: seq<nat>, n: nat, size: nat,
                                      memory: nat)
    requires n <= |heads| && RegionsFit(regions, memory)
    ensures Received(regions, table, Filled(regions, table, heads, n, size))
            == Trim(Buffers(regions, table, heads[..n]), size)
  {
    hide Resolved, Trim, Len, Min, Received, Buffers, Filled, RegionsFit;
    if n == 0 {
      ReceivedNothing(regions, table, heads, size);
    } else {
      var before, head, us := Buffers(regions, table, heads[..n - 1]), heads[n - 1],
                                Filled(regions, table, heads, n - 1, size);
      ReceivedIs(regions, table, heads, n - 1, size, memory);
      var more := Writable(regions, table, head, memory);
      var written := FilledSnoc(regions, table, heads, n, size, more);
      TrimNext(before, more, size);
      ReceivedSnoc(regions, table, us, Used(head, written));
      TrimNone(written);
    }
  }

  lemma ReceivedNothing(regions: seq<Region>, table: seq<Descriptor>, heads: seq<nat>, size: nat)
    ensures Received(regions, table, Filled(regions, table, heads, 0, size))
            == Trim(Buffers(regions, table, heads[..0]), size)
  {
    assert heads[..0] == [];
  }

  /** The n-th element: what its chain took. */
  lemma FilledSnoc(regions: seq<Region>, table: seq<Descriptor>, heads: seq<nat>, n: nat, size: nat, more: seq<Segment>)
      returns (written: nat)
    requires 0 < n <= |heads|
    requires var c := Resolved(regions, table, heads[n - 1]); more == if c.None? then [] else c.value.writable
    ensures var before := Buffers(regions, table, heads[..n - 1]);
            && Buffers(regions, table, heads[..n]) == before + more
            && written == Min(Len(before + more), size) - Min(Len(before), size)
    ensures Filled(regions, table, heads, n, size)
            == Filled(regions, table, heads, n - 1, size) + [Used(heads[n - 1], written)]
  {
    hide Resolved, Len, Min, Buffers;
    assert heads[..n] == heads[..n - 1] + [heads[n - 1]];
    BuffersSnoc(regions, table, heads[..n - 1], heads[n - 1]);
    ReachedGrows(regions, table, heads, n - 1, size);
    written := Reached(regions, table, heads, n, size) - Reached(regions, table, heads, n - 1, size);
  }

  /** The writable segments of a head's chain, none of them empty. */
  lemma Writable(regions: seq<Region>, table: seq<Descriptor>, head: nat, memory: nat) returns (segs: seq<Segment>)
    requires RegionsFit(regions, memory)
    ensures var c := Resolved(regions, table, head); segs == if c.None? then [] else c.value.writable
    ensures forall s <- segs :: 0 < s.len
  {
    hide Resolved;
    var c := Resolved(regions, table, head);
    segs := if c.None? then [] else c.value.writable;
    if c.Some? { ResolvedFits(regions, table, head, memory); }
  }

  function TotalWritten(us: seq<Used>): nat {
    if us == [] then 0 else TotalWritten(us[..|us| - 1]) + us[|us| - 1].written
  }

  lemma {:induction false} FilledTotal(regions: seq<Region>, table: seq<Descriptor>, heads: seq<nat>, n: nat, size: nat)
    requires n <= |heads|
    ensures TotalWritten(Filled(regions, table, heads, n, size)) == Reached(regions, table, heads, n, size)
  {
    if n == 0 {
      assert heads[..0] == [];
    } else {
      hide Reached;
      FilledTotal(regions, table, heads, n - 1, size);
      var us := Filled(regions, table, heads, n, size);
      assert us[..n - 1] == Filled(regions, table, heads, n - 1, size);
    }
  }

  /** The virtio-net header as the driver sees it. */
  function Header(n: nat, numbered: bool): seq<Byte> {
    if numbered then Zeros(10) + LE16(n) else Zeros(NET_HEADER)
  }

  /**
   After a delivery, the lengths in the used elements add up to the header and the frame,
   and the bytes the driver finds by following the elements are the header and the frame.
   */
  lemma FrameArrives(regions: seq<Region>, table: seq<Descriptor>, heads: seq<nat>, frame: seq<Byte>, mergeable: bool,
                     m0: seq<Byte>, m: seq<Byte>, taken0: nat, taken: nat, p0: seq<Used>, us: seq<Used>)
    requires RegionsFit(regions, |m0|)
    requires var out := Filling(regions, table, heads, 0, NET_HEADER + |frame|, mergeable);
             out.Whole? && Settled(regions, table, heads, out, frame, m0, m, taken0, taken, p0, p0 + us)
    requires Disjoint(Received(regions, table, us))
    ensures TotalWritten(us) == NET_HEADER + |frame|
    ensures var segs := Received(regions, table, us);
            && segs != [] && SegmentsFit(segs, |m|)
            && Gathered(m, segs) == Header(|us|, NET_HEADER <= segs[0].len) + frame
  {
    hide Resolved, Len, Trim, Spread, Gathered, Numbered, Disjoint, SegmentsFit, RegionsFit, GoesOn, TotalWritten;
    hide Filling, Filled, Received, Buffers, PouredOver, Pending, Header, Unwritten;
    var size := NET_HEADER + |frame|;
    var n := Filling(regions, table, heads, 0, size, mergeable).n;
    OutcomeIff(regions, table, heads, size, mergeable, n);
    assert (p0 + us)[|p0|..] == us && us == Filled(regions, table, heads, n, size);
    FilledTotal(regions, table, heads, n, size);
    ReceivedIs(regions, table, heads, n, size, |m0|);
    PouredReads(Buffers(regions, table, heads[..n]), frame, m0, n);
  }

  /** Header and frame poured over segments that hold them, then numbered, read back as just that. */
  lemma PouredReads(segs: seq<Segment>, frame: seq<Byte>, m0: seq<Byte>, n: nat)
    requires SegmentsFit(segs, |m0|) && NET_HEADER + |frame| <= Len(segs)
    requires Disjoint(Trim(segs, NET_HEADER + |frame|))
    ensures var t := Trim(segs, NET_HEADER + |frame|);
            && t != [] && SegmentsFit(t, |m0|)
            && Gathered(Numbered(PouredOver(segs, Pending(NET_HEADER, frame), m0), segs, n), t)
               == Header(n, NET_HEADER <= t[0].len) + frame
  {
    hide Gathered, Spread, Disjoint, SegmentsFit;
    var all := Pending(NET_HEADER, frame);
    var t := Trim(segs, |all|);
    TrimFits(segs, |all|, |m0|);
    SpreadGathers(m0, t, all);
    assert all[..|all|] == all;
    SegmentsHead(segs, |m0|);
    TrimFirst(segs, |all|);
    var m := PouredOver(segs, all, m0);
    if NET_HEADER <= segs[0].len {
      PatchGathers(m, t, 10, LE16(n));
      assert Splice(all, 10, LE16(n)) == Header(n, true) + frame;
    }
  }

  lemma SegmentsHead(segs: seq<Segment>, memory: nat)
    requires SegmentsFit(segs, memory) && 0 < Len(segs)
    ensures segs != [] && 0 < segs[0].len
  {
  }
}
