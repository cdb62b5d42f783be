/** Descriptor chains in guest memory (VIRTIO 1.1, section 2.6.5) and frames gathered from them. */
module DescChains {
  import opened Wrappers
  import opened SwitchPorts

  const FLAG_NEXT: bv16 := 1
  const FLAG_WRITE: bv16 := 2
  const FLAG_INDIRECT: bv16 := 4
  const MAX_CHAIN := 256
  const NET_HEADER := 12
  const MAX_FRAME := 65535
  const ADDRESS_MODULUS := 0x1_0000_0000_0000_0000

  // ------------------------------------------------------------ guest memory

  /** Guest addresses [gpa, gpa + size) live at [base, base + size) of the mapped memory. */
  datatype Region = Region(gpa: nat, size: nat, base: nat) {
    predicate Covers(addr: nat, len: nat) { gpa <= addr && addr - gpa + len <= size }

    /** The same test in 64-bit arithmetic. */
    predicate Passes(addr: nat, len: nat) { gpa <= addr && (addr - gpa + len) % ADDRESS_MODULUS <= size }
  }

  /** A stretch of mapped memory. */
  datatype Segment = Segment(start: nat, len: nat) {
    predicate Fits(memory: nat) { start + len <= memory }
  }

  predicate RegionsFit(regions: seq<Region>, memory: nat) {
    WordSized(regions) && forall r <- regions :: r.base + r.size <= memory
  }

  lemma FitIsWordSized(regions: seq<Region>, memory: nat)
    requires RegionsFit(regions, memory)
    ensures WordSized(regions)
  {
  }

  /** The address range lies inside one region, and this is where. */
  predicate Backs(regions: seq<Region>, addr: nat, len: nat, seg: Segment) {
    exists i | 0 <= i < |regions| ::
      && regions[i].Covers(addr, len)
      && (forall k | 0 <= k < i :: !regions[k].Covers(addr, len))
      && seg == Segment(regions[i].base + (addr - regions[i].gpa), len)
  }

  function Located(regions: seq<Region>, addr: nat, len: nat): (seg: Option<Segment>)
    ensures seg.Some? ==> 0 < len == seg.value.len && Backs(regions, addr, len, seg.value)
    ensures seg.None? ==> len == 0 || forall r <- regions :: !r.Covers(addr, len)
  {
    if len == 0 || regions == [] then None
    else if regions[0].Covers(addr, len) then Some(Segment(regions[0].base + (addr - regions[0].gpa), len))
    else
      var rest := Located(regions[1..], addr, len);
      assert rest.Some? ==> Backs(regions, addr, len, rest.value) by {
        if rest.Some? {
          var i :| 0 <= i < |regions[1..]| && regions[1..][i].Covers(addr, len)
            && (forall k | 0 <= k < i :: !regions[1..][k].Covers(addr, len))
            && rest.value == Segment(regions[1..][i].base + (addr - regions[1..][i].gpa), len);
          assert regions[i + 1] == regions[1..][i];
          forall k | 0 <= k < i + 1
            ensures !regions[k].Covers(addr, len)
          {
            if 0 < k { assert regions[k] == regions[1..][k - 1]; }
          }
        }
      }
      rest
  }

  /** What the bounds check makes of a range: its place, an error, or an out-of-range slice that ends the process. */
  datatype Slice = Found(seg: Segment) | Outside | Faults

  function Checked(regions: seq<Region>, addr: nat, len: nat): Slice {
    if len == 0 || regions == [] then Outside
    else if regions[0].Passes(addr, len) then
      if regions[0].Covers(addr, len) then Found(Segment(regions[0].base + (addr - regions[0].gpa), len)) else Faults
    else Checked(regions[1..], addr, len)
  }

  predicate WordSized(regions: seq<Region>) {
    forall r <- regions :: r.gpa < ADDRESS_MODULUS && r.size < ADDRESS_MODULUS
  }

  /** The bounds check every descriptor passes, in 64-bit arithmetic. */
  method GpaSlice(regions: seq<Region>, addr: nat, len: nat) returns (s: Slice)
    requires WordSized(regions) && addr < ADDRESS_MODULUS && len < ADDRESS_MODULUS
    ensures s == Checked(regions, addr, len)
  {
    if len == 0 {
      return Outside;
    }
    for i := 0 to |regions|
      invariant Checked(regions, addr, len) == Checked(regions[i..], addr, len)
    {
      var r := regions[i];
      assert regions[i..][1..] == regions[i + 1..];
      if addr >= r.gpa && (addr - r.gpa + len) % ADDRESS_MODULUS <= r.size {
        var off := addr - r.gpa;
        var end := (off + len) % ADDRESS_MODULUS;
        return if off <= end then Found(Segment(r.base + off, len)) else Faults;
      }
    }
    return Outside;
  }

  /** On machine words the check tells coverage exactly unless the end of the range wraps to within the region. */
  lemma PassesIff(r: Region, addr: nat, len: nat)
    requires r.size < ADDRESS_MODULUS && addr < ADDRESS_MODULUS && len < ADDRESS_MODULUS && r.gpa <= addr
    ensures var end := addr - r.gpa + len;
            (r.Passes(addr, len) <==> r.Covers(addr, len)) <==> end < ADDRESS_MODULUS || r.size < end - ADDRESS_MODULUS
  {
  }

  /** A two-byte range at the top of the address space passes the check of a region at 0 and ends the process. */
  lemma WrappedRangeFaults()
    ensures Checked([Region(0, 4096, 0)], ADDRESS_MODULUS - 1, 2) == Faults
    ensures Located([Region(0, 4096, 0)], ADDRESS_MODULUS - 1, 2) == None
  {
  }

  /** A range that does not wrap is found exactly where it lies. */
  lemma {:induction false} CheckedIs(regions: seq<Region>, addr: nat, len: nat)
    requires addr + len < ADDRESS_MODULUS
    ensures Checked(regions, addr, len)
            == match Located(regions, addr, len) case None => Outside case Some(seg) => Found(seg)
  {
    if regions != [] { CheckedIs(regions[1..], addr, len); }
  }

  // ------------------------------------------------------------------ chains

  datatype Descriptor = Descriptor(addr: nat, len: nat, flags: bv16, next: nat) {
    predicate Next() { flags & FLAG_NEXT != 0 }
    predicate Write() { flags & FLAG_WRITE != 0 }
    predicate Indirect() { flags & FLAG_INDIRECT != 0 }
  }

  /** Device-readable and device-writable parts of a chain, in chain order. */
  datatype Chain = Chain(readable: seq<Segment>, writable: seq<Segment>) {
    function Add(d: Descriptor, seg: Segment): Chain {
      if d.Write() then this.(writable := writable + [seg]) else this.(readable := readable + [seg])
    }
  }

  const NO_SEGMENTS := Chain([], [])

  /** One descriptor of a chain: its segment, unless the chain is malformed here. */
  function Link(regions: seq<Region>, table: seq<Descriptor>, idx: nat, c: Chain): Option<Chain> {
    if |table| <= idx || table[idx].Indirect() then None
    else
      var seg := Located(regions, table[idx].addr, table[idx].len);
      if seg.None? || (!table[idx].Write() && c.writable != []) then None
      else Some(c.Add(table[idx], seg.value))
  }

  /** Walks at most `left` descriptors from idx on, after c. */
  function Walk(regions: seq<Region>, table: seq<Descriptor>, idx: nat, left: nat, c: Chain): Option<Chain>
    decreases left
  {
    if left == 0 then None
    else
      var more := Link(regions, table, idx, c);
      if more.None? then None
      else if table[idx].Next() then Walk(regions, table, table[idx].next, left - 1, more.value)
      else more
  }

  function Resolved(regions: seq<Region>, table: seq<Descriptor>, head: nat): Option<Chain> {
    Walk(regions, table, head, MAX_CHAIN, NO_SEGMENTS)
  }

  predicate InAddressSpace(table: seq<Descriptor>) {
    forall d <- table :: d.addr + d.len < ADDRESS_MODULUS
  }

  /** How a walk over guest-written descriptors ends. */
  datatype Walked = Ends(c: Chain) | Malformed | Crashes

  function WalkChecked(regions: seq<Region>, table: seq<Descriptor>, idx: nat, left: nat, c: Chain): Walked
    decreases left
  {
    if left == 0 || |table| <= idx || table[idx].Indirect() then Malformed
    else
      match Checked(regions, table[idx].addr, table[idx].len)
      case Outside => Malformed
      case Faults => Crashes
      case Found(seg) =>
        if !table[idx].Write() && c.writable != [] then Malformed
        else if table[idx].Next() then WalkChecked(regions, table, table[idx].next, left - 1, c.Add(table[idx], seg))
        else Ends(c.Add(table[idx], seg))
  }

  predicate WordSizedTable(table: seq<Descriptor>) {
    forall d <- table :: d.addr < ADDRESS_MODULUS && d.len < ADDRESS_MODULUS
  }

  /** Terminates on every table a guest can write. */
  method ResolveChain(regions: seq<Region>, table: seq<Descriptor>, head: nat) returns (r: Walked)
    requires WordSized(regions) && WordSizedTable(table)
    ensures r == WalkChecked(regions, table, head, MAX_CHAIN, NO_SEGMENTS)
  {
    var c := NO_SEGMENTS;
    var idx: nat := head;
    var i: nat := 0;
    while true
      invariant i <= MAX_CHAIN
      invariant WalkChecked(regions, table, head, MAX_CHAIN, NO_SEGMENTS)
             == WalkChecked(regions, table, idx, MAX_CHAIN - i, c)
      decreases MAX_CHAIN - i
    {
      if i >= MAX_CHAIN || idx >= |table| {
        return Malformed;
      }
      var d := table[idx];
      if d.flags & FLAG_INDIRECT != 0 {
        return Malformed;
      }
      var s := GpaSlice(regions, d.addr, d.len);
      if !s.Found? {
        return if s.Faults? then Crashes else Malformed;
      }
      if d.flags & FLAG_WRITE != 0 {
        c := c.(writable := c.writable + [s.seg]);
      } else {
        if |c.writable| > 0 {
          return Malformed;
        }
        c := c.(readable := c.readable + [s.seg]);
      }
      if d.flags & FLAG_NEXT == 0 {
        return Ends(c);
      }
      idx := d.next;
      i := i + 1;
    }
  }

  /** Without a wrapping range a walk never crashes, and ends with the chain that Walk describes. */
  lemma {:induction false} WalkIs(regions: seq<Region>, table: seq<Descriptor>, idx: nat, left: nat, c: Chain)
    requires InAddressSpace(table)
    ensures WalkChecked(regions, table, idx, left, c)
            == match Walk(regions, table, idx, left, c) case None => Malformed case Some(r) => Ends(r)
    decreases left
  {
    if 0 < left && idx < |table| {
      CheckedIs(regions, table[idx].addr, table[idx].len);
      var more := Link(regions, table, idx, c);
      if more.Some? && table[idx].Next() { WalkIs(regions, table, table[idx].next, left - 1, more.value); }
    }
  }

  method Resolve(regions: seq<Region>, table: seq<Descriptor>, head: nat) returns (r: Option<Chain>)
    requires WordSized(regions) && InAddressSpace(table)
    ensures r == Resolved(regions, table, head)
  {
    hide Walk, WalkChecked;
    WalkIs(regions, table, head, MAX_CHAIN, NO_SEGMENTS);
    var w := ResolveChain(regions, table, head);
    r := if w.Ends? then Some(w.c) else None;
  }

  // ------------------------------------------- what a well-formed chain is

  /** Descriptor idx of the table can be used: in range, direct, and backed by one region. */
  predicate Usable(regions: seq<Region>, table: seq<Descriptor>, idx: nat) {
    idx < |table| && !table[idx].Indirect() && Located(regions, table[idx].addr, table[idx].len).Some?
  }

  /** The descriptors at these indices, in this order, are a whole chain. */
  predicate Path(regions: seq<Region>, table: seq<Descriptor>, path: seq<nat>) {
    && path != []
    && Usable(regions, table, path[0])
    && (table[path[0]].Next() <==> 1 < |path|)
    && (1 < |path| ==>
          && Path(regions, table, path[1..])
          && table[path[0]].next == path[1]
          && (table[path[0]].Write() ==> table[path[1]].Write()))
  }

  predicate Starts(path: seq<nat>, head: nat) { path != [] && path[0] == head }

  /** The segments of the descriptors on a path that are, or are not, device-writable. */
  function Segments(regions: seq<Region>, table: seq<Descriptor>, path: seq<nat>, write: bool): (segs: seq<Segment>)
    requires path != [] ==> Path(regions, table, path)
  {
    if path == [] then []
    else
      var d := table[path[0]];
      var rest := Segments(regions, table, path[1..], write);
      if d.Write() == write then [Located(regions, d.addr, d.len).value] + rest else rest
  }

  /** The path p takes c on to r. */
  predicate Extends(regions: seq<Region>, table: seq<Descriptor>, path: seq<nat>, c: Chain, r: Chain) {
    && Path(regions, table, path)
    && (c.writable != [] ==> table[path[0]].Write())
    && r.readable == c.readable + Segments(regions, table, path, false)
    && r.writable == c.writable + Segments(regions, table, path, true)
  }

  /** A walk that succeeds followed a path. */
  lemma {:induction false} WalkFollows(regions: seq<Region>, table: seq<Descriptor>, idx: nat, left: nat, c: Chain)
      returns (path: seq<nat>)
    requires Walk(regions, table, idx, left, c).Some?
    ensures Starts(path, idx) && |path| <= left
    ensures Extends(regions, table, path, c, Walk(regions, table, idx, left, c).value)
    decreases left
  {
    var more := Link(regions, table, idx, c).value;
    if table[idx].Next() {
      var rest := WalkFollows(regions, table, table[idx].next, left - 1, more);
      path := [idx] + rest;
      assert path[1..] == rest;
    } else {
      path := [idx];
      assert path[1..] == [];
    }
  }

  /** Every path that is short enough is walked. */
  lemma {:induction false} PathWalks(regions: seq<Region>, table: seq<Descriptor>, path: seq<nat>, left: nat, c: Chain)
    requires Path(regions, table, path) && |path| <= left
    requires c.writable != [] ==> table[path[0]].Write()
    ensures Walk(regions, table, path[0], left, c).Some?
    decreases left
  {
    assert Usable(regions, table, path[0]);
    if table[path[0]].Next() {
      var more := Link(regions, table, path[0], c).value;
      PathWalks(regions, table, path[1..], left - 1, more);
    }
  }

  /** Two paths from one descriptor are the same path. */
  lemma {:induction false} PathUnique(regions: seq<Region>, table: seq<Descriptor>, p: seq<nat>, q: seq<nat>)
    requires Path(regions, table, p) && Path(regions, table, q) && p[0] == q[0]
    ensures p == q
    decreases |p|
  {
    if table[p[0]].Next() {
      PathUnique(regions, table, p[1..], q[1..]);
      assert p == [p[0]] + p[1..] && q == [q[0]] + q[1..];
    } else {
      assert |p| == 1 && |q| == 1;
    }
  }

  /**
   A head resolves exactly when a well-formed chain of at most 256 descriptors starts
   at it; the result then holds exactly that chain's in-region segments.
   */
  lemma ResolvedIff(regions: seq<Region>, table: seq<Descriptor>, head: nat)
    ensures Resolved(regions, table, head).Some?
            <==> exists path :: Path(regions, table, path) && Starts(path, head) && |path| <= MAX_CHAIN
    ensures forall path | Path(regions, table, path) && Starts(path, head) && |path| <= MAX_CHAIN ::
              Resolved(regions, table, head)
              == Some(Chain(Segments(regions, table, path, false), Segments(regions, table, path, true)))
  {
    hide Walk, Path, Segments;
    if Resolved(regions, table, head).Some? {
      var found := WalkFollows(regions, table, head, MAX_CHAIN, NO_SEGMENTS);
      assert Resolved(regions, table, head).value
          == Chain(Segments(regions, table, found, false), Segments(regions, table, found, true));
      forall path | Path(regions, table, path) && Starts(path, head)
        ensures path == found
      {
        PathUnique(regions, table, path, found);
      }
    } else {
      forall path | Path(regions, table, path) && Starts(path, head)
        ensures MAX_CHAIN < |path|
      {
        if |path| <= MAX_CHAIN { PathWalks(regions, table, path, MAX_CHAIN, NO_SEGMENTS); }
      }
    }
  }

  /** Next-links lead from head through these descriptors, and from the last back to one of them. */
  predicate Cyclic(table: seq<Descriptor>, head: nat, loop: seq<nat>) {
    && loop != [] && loop[0] == head
    && (forall i | 0 <= i < |loop| :: loop[i] < |table| && table[loop[i]].Next())
    && (forall i | 0 <= i < |loop| - 1 :: table[loop[i]].next == loop[i + 1])
    && table[loop[|loop| - 1]].next in loop
  }

  /** A cyclic chain never resolves. */
  lemma CyclicRejected(regions: seq<Region>, table: seq<Descriptor>, head: nat, loop: seq<nat>)
    requires Cyclic(table, head, loop)
    ensures Resolved(regions, table, head).None?
  {
    if Resolved(regions, table, head).Some? {
      var path := WalkFollows(regions, table, head, MAX_CHAIN, NO_SEGMENTS);
      OffLoop(regions, table, path, head, loop);
    }
  }

  lemma {:induction false} OffLoop(regions: seq<Region>, table: seq<Descriptor>, path: seq<nat>,
      head: nat, loop: seq<nat>)
    requires Path(regions, table, path) && Cyclic(table, head, loop)
    ensures path[0] !in loop
    decreases path
  {
    if path[0] in loop {
      var k :| 0 <= k < |loop| && loop[k] == path[0];
      assert k < |loop| - 1 ==> table[loop[k]].next == loop[k + 1];
      OffLoop(regions, table, path[1..], head, loop);
    }
  }

  /** Resolved segments are non-empty and lie inside the mapped memory. */
  predicate SegmentsFit(segs: seq<Segment>, memory: nat) {
    forall s <- segs :: 0 < s.len && s.Fits(memory)
  }

  lemma {:induction false} WalkFits(regions: seq<Region>, table: seq<Descriptor>, idx: nat,
      left: nat, c: Chain, memory: nat)
    requires RegionsFit(regions, memory) && SegmentsFit(c.readable, memory) && SegmentsFit(c.writable, memory)
    requires Walk(regions, table, idx, left, c).Some?
    ensures var r := Walk(regions, table, idx, left, c).value;
            SegmentsFit(r.readable, memory) && SegmentsFit(r.writable, memory)
    decreases left
  {
    var more := Link(regions, table, idx, c).value;
    if table[idx].Next() {
      WalkFits(regions, table, table[idx].next, left - 1, more, memory);
    }
  }

  // ------------------------------------------------------------------ gather

  function Bytes(memory: seq<Byte>, seg: Segment): seq<Byte>
    requires seg.Fits(|memory|)
  {
    memory[seg.start..seg.start + seg.len]
  }

  /** The bytes of the segments, one segment after the other. */
  function Gathered(memory: seq<Byte>, segs: seq<Segment>): seq<Byte>
    requires SegmentsFit(segs, |memory|)
  {
    if segs == [] then [] else Gathered(memory, segs[..|segs| - 1]) + Bytes(memory, segs[|segs| - 1])
  }

  /** The frame a chain carries: its readable bytes without the virtio-net header, if the size is in range. */
  function Carried(memory: seq<Byte>, c: Chain): Option<seq<Byte>>
    requires SegmentsFit(c.readable, |memory|)
  {
    var all := Gathered(memory, c.readable);
    if |all| <= NET_HEADER || |all| - NET_HEADER > MAX_FRAME then None else Some(all[NET_HEADER..])
  }

  /** The driver's frame comes out exactly as it was put behind a header, if its size is in range. */
  lemma CarriesFrame(memory: seq<Byte>, c: Chain, header: seq<Byte>, frame: seq<Byte>)
    requires SegmentsFit(c.readable, |memory|) && Gathered(memory, c.readable) == header + frame && |header| == 12
    ensures Carried(memory, c) == if 0 < |frame| <= 65535 then Some(frame) else None
  {
    assert (header + frame)[12..] == frame;
  }

  method GatherTX(memory: seq<Byte>, c: Chain) returns (frame: Option<seq<Byte>>)
    requires SegmentsFit(c.readable, |memory|)
    ensures frame == Carried(memory, c)
  {
    hide Bytes, SegmentsFit, Gathered;
    var segs := c.readable;
    var total := 0;
    GatheredStart(memory, segs);
    for i := 0 to |segs|
      invariant SegmentsFit(segs[..i], |memory|) && total == |Gathered(memory, segs[..i])|
    {
      GatheredNext(memory, segs, i);
      total := total + segs[i].len;
    }
    assert segs[..|segs|] == segs;
    if total <= NET_HEADER || total - NET_HEADER > MAX_FRAME {
      return None;
    }
    var out: seq<Byte> := [];
    var skip: nat := NET_HEADER;
    for i := 0 to |segs|
      invariant SegmentsFit(segs[..i], |memory|)
      invariant Skipped(Gathered(memory, segs[..i]), skip, out)
    {
      GatheredNext(memory, segs, i);
      SkippedNext(Gathered(memory, segs[..i]), skip, out, Bytes(memory, segs[i]));
      if skip >= segs[i].len {
        skip := skip - segs[i].len;
      } else {
        out := out + Bytes(memory, segs[i])[skip..];
        skip := 0;
      }
    }
    return Some(out);
  }

  /** Of the bytes seen so far the header is skipped and the rest copied. */
  predicate Skipped(seen: seq<Byte>, skip: nat, out: seq<Byte>) {
    if |seen| <= NET_HEADER then skip == NET_HEADER - |seen| && out == []
    else skip == 0 && out == seen[NET_HEADER..]
  }

  lemma SkippedNext(seen: seq<Byte>, skip: nat, out: seq<Byte>, more: seq<Byte>)
    requires Skipped(seen, skip, out)
    ensures if skip >= |more| then Skipped(seen + more, skip - |more|, out)
            else Skipped(seen + more, 0, out + more[skip..])
  {
  }

  lemma GatheredStart(memory: seq<Byte>, segs: seq<Segment>)
    ensures SegmentsFit(segs[..0], |memory|) && Gathered(memory, segs[..0]) == []
  {
  }

  lemma GatheredNext(memory: seq<Byte>, segs: seq<Segment>, i: nat)
    requires SegmentsFit(segs, |memory|) && i < |segs|
    ensures SegmentsFit(segs[..i], |memory|) && SegmentsFit(segs[..i + 1], |memory|) && segs[i].Fits(|memory|)
    ensures Gathered(memory, segs[..i + 1]) == Gathered(memory, segs[..i]) + Bytes(memory, segs[i])
    ensures |Bytes(memory, segs[i])| == segs[i].len
  {
    assert segs[..i + 1][..i] == segs[..i];
  }
}
