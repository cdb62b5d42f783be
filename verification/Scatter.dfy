/** Bytes written over a list of memory segments, and read back from them. */
module Scatter {
  import opened SwitchPorts
  import opened DescChains

  function Min(a: nat, b: nat): nat { if a < b then a else b }

  function Len(segs: seq<Segment>): nat {
    if segs == [] then 0 else Len(segs[..|segs| - 1]) + segs[|segs| - 1].len
  }

  lemma {:induction false} LenAdds(a: seq<Segment>, b: seq<Segment>)
    ensures Len(a + b) == Len(a) + Len(b)
  {
    if b == [] {
      assert a + b == a;
    } else {
      LenAdds(a, b[..|b| - 1]);
      assert (a + b)[..|a + b| - 1] == a + b[..|b| - 1];
    }
  }

  /** t, and of the last segment as much as is missing from n bytes. */
  function Grown(t: seq<Segment>, last: Segment, n: nat): (r: seq<Segment>)
    requires Len(t) <= n
    ensures Len(r) == Min(Len(t) + last.len, n)
  {
    if Len(t) == n then t
    else
      var more := Segment(last.start, Min(last.len, n - Len(t)));
      assert (t + [more])[..|t|] == t;
      t + [more]
  }

  lemma GrownAdds(a: seq<Segment>, b: seq<Segment>, last: Segment, n: nat)
    requires Len(a) + Len(b) <= n
    ensures Len(a + b) <= n
    ensures Grown(a + b, last, n) == a + Grown(b, last, n - Len(a))
  {
    hide Len;
    LenAdds(a, b);
    if Len(b) < n - Len(a) {
      var more := Segment(last.start, Min(last.len, n - Len(a) - Len(b)));
      assert Grown(b, last, n - Len(a)) == b + [more] && Grown(a + b, last, n) == (a + b) + [more];
      assert (a + b) + [more] == a + (b + [more]);
    }
  }

  /** The part of the segments that n bytes fill, from the first segment on. */
  function Trim(segs: seq<Segment>, n: nat): (t: seq<Segment>)
    ensures Len(t) == Min(Len(segs), n)
  {
    if segs == [] then [] else Grown(Trim(segs[..|segs| - 1], n), segs[|segs| - 1], n)
  }

  lemma TrimSnoc(segs: seq<Segment>, last: Segment, n: nat)
    ensures Trim(segs + [last], n) == Grown(Trim(segs, n), last, n)
  {
    assert (segs + [last])[..|segs|] == segs;
  }

  lemma TrimNone(n: nat)
    ensures Trim([], n) == [] && Len([]) == 0
  {
  }

  lemma {:induction false} TrimAdds(a: seq<Segment>, b: seq<Segment>, n: nat)
    ensures Trim(a + b, n) == Trim(a, n) + Trim(b, n - Len(Trim(a, n)))
  {
    hide Len, Grown, Trim;
    var ta := Trim(a, n);
    if b == [] {
      TrimNone(n - Len(ta));
      assert a + b == a && ta + [] == ta;
    } else {
      var rest, last := b[..|b| - 1], b[|b| - 1];
      TrimAdds(a, rest, n);
      GrownAdds(ta, Trim(rest, n - Len(ta)), last, n);
      assert b == rest + [last] && a + b == (a + rest) + [last];
      TrimSnoc(rest, last, n - Len(ta));
      TrimSnoc(a + rest, last, n);
    }
  }

  lemma LenSnoc(segs: seq<Segment>)
    requires segs != []
    ensures Len(segs) == Len(segs[..|segs| - 1]) + segs[|segs| - 1].len
  {
  }

  lemma GrownWhole(t: seq<Segment>, last: Segment, n: nat)
    requires 0 < last.len && Len(t) + last.len <= n
    ensures Grown(t, last, n) == t + [last]
  {
  }

  /** Segments that n bytes fill completely are not trimmed. */
  lemma {:induction false} TrimAll(segs: seq<Segment>, n: nat)
    requires (forall s <- segs :: 0 < s.len) && Len(segs) <= n
    ensures Trim(segs, n) == segs
  {
    hide Len, Trim, Grown;
    if segs == [] {
      TrimNone(n);
    } else {
      var rest, last := segs[..|segs| - 1], segs[|segs| - 1];
      LenSnoc(segs);
      TrimAll(rest, n);
      GrownWhole(rest, last, n);
      TrimSnoc(rest, last, n);
      assert segs == rest + [last];
    }
  }

  lemma TrimExact(segs: seq<Segment>, n: nat)
    requires forall s <- segs :: 0 < s.len
    ensures Trim(segs, n) == Trim(segs, Min(Len(segs), n))
  {
    if Len(segs) <= n { TrimAll(segs, n); TrimAll(segs, Len(segs)); }
  }

  lemma TrimFirst(segs: seq<Segment>, n: nat)
    requires segs != [] && 0 < segs[0].len && 0 < n
    ensures Trim(segs, n) != [] && Trim(segs, n)[0] == Segment(segs[0].start, Min(segs[0].len, n))
  {
    var first := [segs[0]];
    assert segs == first + segs[1..];
    TrimAdds(first, segs[1..], n);
    TrimSnoc([], segs[0], n);
    assert [] + first == first;
  }

  lemma {:induction false} TrimNothing(segs: seq<Segment>)
    ensures Trim(segs, 0) == []
  {
    if segs != [] { TrimNothing(segs[..|segs| - 1]); }
  }

  lemma GrownFits(t: seq<Segment>, last: Segment, n: nat, memory: nat)
    requires Len(t) <= n && SegmentsFit(t, memory) && 0 < last.len && last.Fits(memory)
    ensures SegmentsFit(Grown(t, last, n), memory)
  {
  }

  lemma {:induction false} TrimFits(segs: seq<Segment>, n: nat, memory: nat)
    requires SegmentsFit(segs, memory)
    ensures SegmentsFit(Trim(segs, n), memory)
  {
    if segs != [] {
      var rest, last := segs[..|segs| - 1], segs[|segs| - 1];
      assert last in segs;
      hide Len, Grown, SegmentsFit;
      FitsPrefix(segs, |rest|, memory);
      TrimFits(rest, n, memory);
      GrownFits(Trim(rest, n), last, n, memory);
    }
  }

  lemma FitsPrefix(segs: seq<Segment>, k: nat, memory: nat)
    requires SegmentsFit(segs, memory) && k <= |segs|
    ensures SegmentsFit(segs[..k], memory)
  {
  }

  lemma FitsJoin(a: seq<Segment>, b: seq<Segment>, memory: nat)
    requires SegmentsFit(a, memory) && SegmentsFit(b, memory)
    ensures SegmentsFit(a + b, memory)
  {
  }

  /** m with the bytes from `at` on replaced. */
  function Splice(m: seq<Byte>, at: nat, bytes: seq<Byte>): (r: seq<Byte>)
    requires at + |bytes| <= |m|
    ensures |r| == |m|
  {
    m[..at] + bytes + m[at + |bytes|..]
  }

  lemma SpliceMore(m: seq<Byte>, at: nat, x: seq<Byte>, y: seq<Byte>)
    requires at + |x| + |y| <= |m|
    ensures Splice(Splice(m, at, x), at + |x|, y) == Splice(m, at, x + y)
  {
  }

  /** m after the bytes have been written over the segments in order. */
  function Spread(m: seq<Byte>, segs: seq<Segment>, bytes: seq<Byte>): (r: seq<Byte>)
    requires SegmentsFit(segs, |m|) && Len(segs) == |bytes|
    ensures |r| == |m|
    decreases |segs|
  {
    if segs == [] then m
    else
      var last := segs[|segs| - 1];
      var cut := |bytes| - last.len;
      Splice(Spread(m, segs[..|segs| - 1], bytes[..cut]), last.start, bytes[cut..])
  }

  lemma SpreadSnoc(m: seq<Byte>, segs: seq<Segment>, bytes: seq<Byte>, last: Segment, tail: seq<Byte>)
    requires SegmentsFit(segs + [last], |m|) && Len(segs) == |bytes| && last.len == |tail|
    ensures Len(segs + [last]) == |bytes + tail|
    ensures SegmentsFit(segs, |m|)
    ensures Spread(m, segs + [last], bytes + tail) == Splice(Spread(m, segs, bytes), last.start, tail)
  {
    hide Splice;
    assert (segs + [last])[..|segs|] == segs;
    assert forall s <- segs :: s in segs + [last];
    assert (bytes + tail)[..|bytes|] == bytes && (bytes + tail)[|bytes|..] == tail;
  }

  lemma SpreadStep(m: seq<Byte>, a: seq<Segment>, x: seq<Byte>, b: seq<Segment>, y: seq<Byte>,
                   last: Segment, tail: seq<Byte>)
    requires SegmentsFit(a, |m|) && Len(a) == |x|
    requires SegmentsFit(b + [last], |m|) && Len(b) == |y| && last.len == |tail|
    requires SegmentsFit(b, |m|) && Len(a + b) == |x + y|
    requires Spread(m, a + b, x + y) == Spread(Spread(m, a, x), b, y)
    ensures Len(b + [last]) == |y + tail| && Len(a + (b + [last])) == |x + (y + tail)|
    ensures Spread(m, a + (b + [last]), x + (y + tail)) == Spread(Spread(m, a, x), b + [last], y + tail)
  {
    hide Splice, Spread, Len;
    assert a + (b + [last]) == (a + b) + [last];
    assert x + (y + tail) == (x + y) + tail;
    SpreadSnoc(Spread(m, a, x), b, y, last, tail);
    SpreadSnoc(m, a + b, x + y, last, tail);
  }

  lemma SpreadNothing(m: seq<Byte>, a: seq<Segment>, x: seq<Byte>)
    requires SegmentsFit(a, |m|) && Len(a) == |x|
    ensures Len([]) == 0 && Len(a + []) == |x + []|
    ensures Spread(m, a + [], x + []) == Spread(Spread(m, a, x), [], [])
  {
    hide Splice;
    assert a + [] == a && x + [] == x;
  }

  lemma {:induction false} SpreadAdds(m: seq<Byte>, a: seq<Segment>, x: seq<Byte>, b: seq<Segment>, y: seq<Byte>)
    requires SegmentsFit(a, |m|) && Len(a) == |x|
    requires SegmentsFit(b, |m|) && Len(b) == |y|
    ensures Len(a + b) == |x + y|
    ensures Spread(m, a + b, x + y) == Spread(Spread(m, a, x), b, y)
    decreases |b|
  {
    hide Splice, Spread, Len, SegmentsFit;
    if b == [] {
      SpreadNothing(m, a, x);
      assert y == [];
    } else {
      LenSnoc(b);
      var rest, last := b[..|b| - 1], b[|b| - 1];
      var cut := |y| - last.len;
      FitsPrefix(b, |rest|, |m|);
      SpreadAdds(m, a, x, rest, y[..cut]);
      assert b == rest + [last] && y == y[..cut] + y[cut..];
      SpreadStep(m, a, x, rest, y[..cut], last, y[cut..]);
    }
  }

  // ------------------------------------------------------ reading back

  predicate Apart(a: Segment, b: Segment) { a.start + a.len <= b.start || b.start + b.len <= a.start }

  predicate Disjoint(segs: seq<Segment>) {
    forall i, j | 0 <= i < j < |segs| :: Apart(segs[i], segs[j])
  }

  /** Writing elsewhere does not change what is read. */
  lemma {:induction false} GatheredApart(m: seq<Byte>, segs: seq<Segment>, at: nat, bytes: seq<Byte>)
    requires SegmentsFit(segs, |m|) && at + |bytes| <= |m|
    requires forall s <- segs :: Apart(s, Segment(at, |bytes|))
    ensures Gathered(Splice(m, at, bytes), segs) == Gathered(m, segs)
  {
    if segs != [] {
      GatheredApart(m, segs[..|segs| - 1], at, bytes);
      BytesApart(m, segs[|segs| - 1], at, bytes);
    }
  }

  lemma BytesApart(m: seq<Byte>, seg: Segment, at: nat, bytes: seq<Byte>)
    requires seg.Fits(|m|) && at + |bytes| <= |m| && Apart(seg, Segment(at, |bytes|))
    ensures Bytes(Splice(m, at, bytes), seg) == Bytes(m, seg)
  {
    var r := Splice(m, at, bytes);
    assert forall i | seg.start <= i < seg.start + seg.len :: r[i] == m[i];
  }

  /** What is spread over disjoint segments is what is gathered from them. */
  lemma {:induction false} SpreadGathers(m: seq<Byte>, segs: seq<Segment>, bytes: seq<Byte>)
    requires SegmentsFit(segs, |m|) && Len(segs) == |bytes| && Disjoint(segs)
    ensures Gathered(Spread(m, segs, bytes), segs) == bytes
    decreases |segs|
  {
    if segs != [] {
      var rest, last := segs[..|segs| - 1], segs[|segs| - 1];
      var cut := |bytes| - last.len;
      SpreadGathers(m, rest, bytes[..cut]);
      GatheredApart(Spread(m, rest, bytes[..cut]), rest, last.start, bytes[cut..]);
      assert Bytes(Spread(m, segs, bytes), last) == bytes[cut..];
      assert bytes == bytes[..cut] + bytes[cut..];
    }
  }

  lemma SpliceAppend(m: seq<Byte>, more: seq<Byte>, at: nat, bytes: seq<Byte>)
    requires at + |bytes| <= |m|
    ensures Splice(m + more, at, bytes) == Splice(m, at, bytes) + more
  {
  }

  lemma BytesPatched(m: seq<Byte>, seg: Segment, at: nat, bytes: seq<Byte>)
    requires seg.Fits(|m|) && at + |bytes| <= seg.len
    ensures |Bytes(m, seg)| == seg.len
    ensures Bytes(Splice(m, seg.start + at, bytes), seg) == Splice(Bytes(m, seg), at, bytes)
  {
  }

  lemma GatheredSnoc(m: seq<Byte>, segs: seq<Segment>)
    requires SegmentsFit(segs, |m|) && segs != []
    ensures var rest, last := segs[..|segs| - 1], segs[|segs| - 1];
            && SegmentsFit(rest, |m|) && last.Fits(|m|)
            && Gathered(m, segs) == Gathered(m, rest) + Bytes(m, last)
            && (rest == [] ==> Gathered(m, rest) == [])
  {
  }

  lemma DisjointParts(segs: seq<Segment>)
    requires Disjoint(segs) && segs != []
    ensures Disjoint(segs[..|segs| - 1]) && (1 < |segs| ==> Apart(segs[0], segs[|segs| - 1]))
  {
  }

  /** A write inside the first segment shows at the same offset of what is gathered. */
  lemma {:induction false} PatchGathers(m: seq<Byte>, segs: seq<Segment>, at: nat, bytes: seq<Byte>)
    requires SegmentsFit(segs, |m|) && Disjoint(segs)
    requires segs != [] && at + |bytes| <= segs[0].len
    ensures at + |bytes| <= |Gathered(m, segs)|
    ensures Gathered(Splice(m, segs[0].start + at, bytes), segs) == Splice(Gathered(m, segs), at, bytes)
  {
    hide Splice, Bytes, Gathered, SegmentsFit, Disjoint;
    var rest, last := segs[..|segs| - 1], segs[|segs| - 1];
    GatheredSnoc(m, segs);
    SegmentsFirst(segs, |m|);
    var m' := Splice(m, segs[0].start + at, bytes);
    GatheredSnoc(m', segs);
    DisjointParts(segs);
    if |segs| == 1 {
      BytesPatched(m, last, at, bytes);
      assert [] + Bytes(m, last) == Bytes(m, last) && [] + Bytes(m', last) == Bytes(m', last);
    } else {
      PatchGathers(m, rest, at, bytes);
      BytesApart(m, last, segs[0].start + at, bytes);
      SpliceAppend(Gathered(m, rest), Bytes(m, last), at, bytes);
    }
  }

  lemma SegmentsFirst(segs: seq<Segment>, memory: nat)
    requires SegmentsFit(segs, memory) && segs != []
    ensures 0 < segs[0].len && segs[0].Fits(memory)
  {
  }
}
