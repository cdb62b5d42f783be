/** Configuration and topology-change BPDUs on the wire (section 9.3 of IEEE 802.1D-1998). */
module Bpdu {
  import opened Wrappers
  import opened SwitchPorts
  import opened Frames
  import opened StpVectors
  import opened Division

  const SECOND := 1_000_000_000
  const TICK := 3_906_250        // wire times count 1/256 s

  // ------------------------------------------------------- big-endian numbers

  function Pow256(n: nat): nat { if n == 0 then 1 else 256 * Pow256(n - 1) }

  function BE(n: nat, v: nat): (b: seq<Byte>)
    ensures |b| == n
  {
    if n == 0 then [] else BE(n - 1, v / 256) + [v % 256]
  }

  lemma {:induction false} BERoundTrip(n: nat, v: nat)
    requires v < Pow256(n)
    ensures FromBE(BE(n, v)) == v
  {
    if n > 0 {
      BERoundTrip(n - 1, v / 256);
      assert BE(n, v)[..n - 1] == BE(n - 1, v / 256);
    }
  }

  lemma Widths()
    ensures Pow256(2) == 0x1_0000 && Pow256(4) == 0x1_0000_0000 && Pow256(8) == 0x1_0000_0000_0000_0000
  {
    assert Pow256(3) == 256 * Pow256(2) && Pow256(5) == 256 * Pow256(4);
    assert Pow256(6) == 256 * Pow256(5) && Pow256(7) == 256 * Pow256(6);
  }

  /** Overwrites part of a buffer with b. */
  method Copy(a: array<Byte>, off: nat, b: seq<Byte>)
    requires off + |b| <= a.Length
    modifies a
    ensures a[..off + |b|] == old(a[..off]) + b
    ensures forall i | off + |b| <= i < a.Length :: a[i] == old(a[i])
  {
    for i := 0 to |b|
      invariant a[..off + i] == old(a[..off]) + b[..i]
      invariant forall k | off + i <= k < a.Length :: a[k] == old(a[k])
    {
      a[off + i] := b[i];
      assert a[..off + i + 1] == a[..off + i] + [b[i]];
    }
  }

  /** Writes v big-endian into n bytes of a, last byte first. */
  method PutBE(a: array<Byte>, off: nat, n: nat, v: nat)
    requires off + n <= a.Length
    modifies a
    ensures a[..off + n] == old(a[..off]) + BE(n, v)
    ensures forall i | off + n <= i < a.Length :: a[i] == old(a[i])
  {
    var k, rest := n, v;
    while k > 0
      invariant 0 <= k <= n && 0 <= rest
      invariant BE(n, v) == BE(k, rest) + a[off + k..off + n]
      invariant a[..off + k] == old(a[..off + k])
      invariant forall i | off + n <= i < a.Length :: a[i] == old(a[i])
    {
      k := k - 1;
      ghost var done := a[off + k + 1..off + n];
      a[off + k] := rest % 256;
      assert a[off + k..off + n] == [rest % 256] + done;
      rest := rest / 256;
    }
  }

  // ----------------------------------------------------------------- messages

  datatype Config = Config(flags: Byte, vector: Vector, age: nat, maxAge: nat, hello: nat, forwardDelay: nat) {
    /** Every field fits its place on the wire. */
    predicate Fits() {
      && vector.rootID < 0x1_0000_0000_0000_0000 && vector.cost < 0x1_0000_0000
      && vector.bridgeID < 0x1_0000_0000_0000_0000 && vector.portID < 0x1_0000
      && age < 0x1_0000 && maxAge < 0x1_0000 && hello < 0x1_0000 && forwardDelay < 0x1_0000
    }
  }

  /** Group address, source, 802.3 length, LLC. */
  function Header(mac: MAC, payloadLen: nat): (f: Frame)
    ensures |f| == 17
  {
    [0x01, 0x80, 0xc2, 0, 0, 0, 0x02] + mac[1..] + BE(2, 3 + payloadLen) + [0x42, 0x42, 0x03]
  }

  function Body(c: Config): (p: seq<Byte>)
    ensures |p| == 35
  {
    [0, 0, 0, 0, c.flags] + VectorBytes(c.vector) + TimeBytes(c)
  }

  function TimeBytes(c: Config): (b: seq<Byte>)
    ensures |b| == 8
  {
    BE(2, c.age) + BE(2, c.maxAge) + BE(2, c.hello) + BE(2, c.forwardDelay)
  }

  function VectorBytes(v: Vector): (b: seq<Byte>)
    ensures |b| == 22
  {
    BE(8, v.rootID) + BE(4, v.cost) + BE(8, v.bridgeID) + BE(2, v.portID)
  }

  /** The frame of a configuration BPDU, padded to the 60-byte minimum. */
  function ConfigFrame(mac: MAC, c: Config): Frame { Header(mac, 35) + Body(c) + Zeros(8) }

  function TcnFrame(mac: MAC): Frame { Header(mac, 4) + [0, 0, 0, 0x80] + Zeros(39) }

  method FrameHeader(mac: MAC, payloadLen: nat) returns (f: array<Byte>)
    ensures fresh(f) && f.Length == 17 + payloadLen
    ensures f[..17] == Header(mac, payloadLen) && f[17..] == Zeros(payloadLen)
  {
    f := new Byte[17 + payloadLen](_ => 0);
    Copy(f, 0, [0x01, 0x80, 0xc2, 0, 0, 0, 0x02]);
    Copy(f, 7, mac[1..]);
    PutBE(f, 12, 2, 3 + payloadLen);
    Copy(f, 14, [0x42, 0x42, 0x03]);
  }

  method PutVector(f: array<Byte>, off: nat, v: Vector)
    requires off + 22 <= f.Length
    modifies f
    ensures f[..off + 22] == old(f[..off]) + VectorBytes(v)
    ensures forall i | off + 22 <= i < f.Length :: f[i] == old(f[i])
  {
    hide BE;
    ghost var start := f[..off];
    PutBE(f, off, 8, v.rootID);
    PutBE(f, off + 8, 4, v.cost);
    ghost var half := BE(8, v.rootID) + BE(4, v.cost);
    assert f[..off + 12] == start + half;
    PutBE(f, off + 12, 8, v.bridgeID);
    PutBE(f, off + 20, 2, v.portID);
    assert f[..off + 22] == start + half + BE(8, v.bridgeID) + BE(2, v.portID);
    assert VectorBytes(v) == half + BE(8, v.bridgeID) + BE(2, v.portID);
  }

  method PutTimes(f: array<Byte>, c: Config)
    requires f.Length == 52
    modifies f
    ensures f[..52] == old(f[..44]) + TimeBytes(c)
  {
    ghost var start := f[..44];
    PutBE(f, 44, 2, c.age);
    PutBE(f, 46, 2, c.maxAge);
    ghost var half := BE(2, c.age) + BE(2, c.maxAge);
    assert f[..48] == start + half;
    PutBE(f, 48, 2, c.hello);
    PutBE(f, 50, 2, c.forwardDelay);
    assert f[..52] == start + half + BE(2, c.hello) + BE(2, c.forwardDelay);
  }

  method BuildConfig(mac: MAC, c: Config) returns (frame: Frame)
    ensures frame == ConfigFrame(mac, c)
  {
    var f := FrameHeader(mac, 35);
    assert f[..21] == f[..17] + f[17..][..4] == Header(mac, 35) + [0, 0, 0, 0];
    Copy(f, 21, [c.flags]);
    PutVector(f, 22, c.vector);
    ghost var start := Header(mac, 35) + [0, 0, 0, 0] + [c.flags] + VectorBytes(c.vector);
    assert f[..44] == start;
    PutTimes(f, c);
    assert f[..52] == f[..];
    frame := f[..] + Zeros(8);
  }

  datatype Message = ConfigMessage(flags: Byte, vector: Vector, age: nat) | Tcn

  /** What the receiver reads out of a BPDU frame; None is ignored. */
  function Decode(frame: Frame): Option<Message>
    requires 17 <= |frame|
  {
    var p := frame[17..];
    if |p| < 4 then None
    else if p[3] == 0x80 then Some(Tcn)
    else if p[3] != 0 || |p| < 35 then None
    else Some(ConfigMessage(p[4], Vector(FromBE(p[5..13]), FromBE(p[13..17]), FromBE(p[17..25]), FromBE(p[25..27])),
                            FromBE(p[27..29])))
  }

  lemma HeaderIsBPDU(mac: MAC, len: nat, rest: seq<Byte>)
    requires 3 + len <= 1500
    ensures var f := Header(mac, len) + rest;
            && IsBPDU(f) && ReservedGroup(DstMAC(f)) && Parse(f) == Some(FrameView(f, false, 0))
  {
    var f := Header(mac, len) + rest;
    TwoBytes(3 + len);
    var b := BE(2, 3 + len);
    assert Header(mac, len)[12..14] == b && f[12] == b[0] && f[13] == b[1];
    assert f[..6] == [0x01, 0x80, 0xc2, 0, 0, 0];
  }

  lemma TwoBytes(v: nat)
    requires v < 0x1_0000
    ensures BE(2, v) == [v / 256, v % 256]
  {
    assert BE(1, v / 256) == BE(0, v / 256 / 256) + [v / 256 % 256];
  }

  /** Where each field lies in the payload. */
  lemma BodyFields(c: Config, rest: seq<Byte>)
    ensures var p := Body(c) + rest;
            && p[3] == 0 && p[4] == c.flags
            && p[5..13] == BE(8, c.vector.rootID) && p[13..17] == BE(4, c.vector.cost)
            && p[17..25] == BE(8, c.vector.bridgeID) && p[25..27] == BE(2, c.vector.portID)
            && p[27..29] == BE(2, c.age) && p[29..31] == BE(2, c.maxAge)
            && p[31..33] == BE(2, c.hello) && p[33..35] == BE(2, c.forwardDelay)
  {}

  /** A transmitted configuration BPDU is recognised, untagged, and decodes to what was sent. */
  lemma ConfigRoundTrip(mac: MAC, c: Config)
    requires c.Fits()
    ensures var f := ConfigFrame(mac, c);
            && |f| == 60 && IsBPDU(f) && ReservedGroup(DstMAC(f)) && Parse(f) == Some(FrameView(f, false, 0))
            && Decode(f) == Some(ConfigMessage(c.flags, c.vector, c.age))
  {
    var f := ConfigFrame(mac, c);
    HeaderIsBPDU(mac, 35, Body(c) + Zeros(8));
    assert f == Header(mac, 35) + (Body(c) + Zeros(8));
    assert f[17..] == Body(c) + Zeros(8);
    BodyFields(c, Zeros(8));
    Widths();
    BERoundTrip(8, c.vector.rootID);
    BERoundTrip(4, c.vector.cost);
    BERoundTrip(8, c.vector.bridgeID);
    BERoundTrip(2, c.vector.portID);
    BERoundTrip(2, c.age);
  }

  lemma TcnRoundTrip(mac: MAC)
    ensures var f := TcnFrame(mac); |f| == 60 && IsBPDU(f) && ReservedGroup(DstMAC(f)) && Decode(f) == Some(Tcn)
  {
    var f := TcnFrame(mac);
    HeaderIsBPDU(mac, 4, [0, 0, 0, 0x80] + Zeros(39));
    assert f == Header(mac, 4) + ([0, 0, 0, 0x80] + Zeros(39));
    assert f[17..] == [0, 0, 0, 0x80] + Zeros(39);
  }

  // -------------------------------------------------------------------- times

  /** A duration in nanoseconds as a 16-bit count of 1/256 s; larger ones wrap. */
  function Wire(d: nat): nat { d * 256 / SECOND % 0x1_0000 }

  function FromWire(w: nat): nat { w * SECOND / 256 }

  /** Below 256 s the wire carries the whole 1/256 s units. */
  lemma WireUnits(d: nat)
    requires d < 256 * SECOND
    ensures Wire(d) == d / TICK
  {
    var q, r := d / TICK, d % TICK;
    QuotientIs(d * 256, SECOND, q, r * 256);
    assert q < 65536;
  }

  lemma FromWireUnits(w: nat)
    ensures FromWire(w) == w * TICK
  {
    QuotientIs(w * SECOND, 256, w * TICK, 0);
  }

  /** A duration below 256 s arrives rounded down to 1/256 s. */
  lemma AgeRoundsDown(d: nat)
    ensures d < 256 * SECOND ==> FromWire(Wire(d)) == d - d % TICK
  {
    if d < 256 * SECOND {
      WireUnits(d);
      FromWireUnits(d / TICK);
    }
  }
}
