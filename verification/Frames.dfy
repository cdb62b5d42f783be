/** Ethernet frames: parsing, VLAN classification and rewriting, and the bridge's own control frames. */
module Frames {
  import opened Wrappers
  import opened SwitchPorts

  const ETH_HEADER := 14
  const UNTAGGED_KEY := 0

  type Frame = seq<Byte>

  datatype FrameView = FrameView(data: Frame, tagged: bool, vid: nat)

  function Be16(d: Frame, i: nat): nat
    requires i + 2 <= |d|
  {
    d[i] as int * 256 + d[i + 1] as int
  }

  function Parse(data: Frame): Option<FrameView> {
    if |data| < ETH_HEADER then None
    else if Be16(data, 12) != 0x8100 then Some(FrameView(data, false, 0))
    else if |data| < ETH_HEADER + 4 then None
    else Some(FrameView(data, true, Be16(data, 14) % 4096))
  }

  function DstMAC(data: Frame): MAC
    requires ETH_HEADER <= |data|
  {
    data[..6]
  }

  function SrcMAC(data: Frame): MAC
    requires ETH_HEADER <= |data|
  {
    data[6..12]
  }

  predicate Multicast(m: MAC) { m[0] % 2 == 1 }

  /** The VLAN domain an ingress frame belongs to; None drops it. */
  function IngressKey(attrs: PortAttrs, f: FrameView): Option<nat> {
    if attrs.vlan == VLAN_TRUNK then Some(if f.tagged then f.vid else UNTAGGED_KEY)
    else if f.tagged then None
    else Some(attrs.vlan)
  }

  predicate EgressEligible(src: PortAttrs, dst: PortAttrs, key: nat) {
    && !dst.disabled
    && !(src.isolated && dst.isolated)
    && (dst.vlan == VLAN_TRUNK || key == dst.vlan)
  }

  function UntaggedForm(f: FrameView): Frame
    requires ETH_HEADER + 4 <= |f.data| || !f.tagged
  {
    if f.tagged then f.data[..12] + f.data[16..] else f.data
  }

  function TaggedForm(f: FrameView, key: nat): Frame
    requires ETH_HEADER <= |f.data|
  {
    if f.tagged then f.data
    else f.data[..12] + [0x81, 0x00, key % 4096 / 256, key % 256] + f.data[12..]
  }

  /** The frame as a port with these attributes must see it. */
  function EgressFrame(f: FrameView, key: nat, dst: PortAttrs): Frame
    requires Parse(f.data) == Some(f)
  {
    if dst.vlan == VLAN_TRUNK && key != UNTAGGED_KEY then TaggedForm(f, key) else UntaggedForm(f)
  }

  /** The renderings of one frame, each built at most once. */
  class FrameVariants {
    const f: FrameView
    const key: nat
    var untagged: Option<Frame>
    var tagged: Option<Frame>

    ghost predicate Valid()
      reads this
    {
      && Parse(f.data) == Some(f)
      && (untagged.Some? ==> untagged.value == UntaggedForm(f))
      && (tagged.Some? ==> tagged.value == TaggedForm(f, key))
    }

    constructor (f: FrameView, key: nat)
      requires Parse(f.data) == Some(f)
      ensures Valid() && this.f == f && this.key == key && untagged == tagged == None
    {
      this.f, this.key := f, key;
      untagged, tagged := None, None;
    }

    method Render(dst: PortAttrs) returns (out: Frame)
      requires Valid()
      modifies this
      ensures Valid() && out == EgressFrame(f, key, dst)
      ensures old(untagged.Some?) ==> untagged == old(untagged)
      ensures old(tagged.Some?) ==> tagged == old(tagged)
    {
      var d := f.data;
      if dst.vlan == VLAN_TRUNK && key != UNTAGGED_KEY {
        if f.tagged { return d; }
        if tagged == None {
          tagged := Some(d[..12] + [0x81, 0x00, key % 4096 / 256, key % 256] + d[12..]);
        }
        return tagged.value;
      }
      if !f.tagged { return d; }
      if untagged == None { untagged := Some(d[..12] + d[16..]); }
      return untagged.value;
    }
  }

  /**
   A frame that enters on an access port of VLAN v (or an untagged-only port, v = 0),
   crosses a trunk to another switch and leaves on a port of the same kind there
   comes out byte for byte, and stays in its VLAN on the way.
   */
  lemma TrunkRoundTrip(data: Frame, a: PortAttrs, trunkOut: PortAttrs, trunkIn: PortAttrs, z: PortAttrs)
    requires a.vlan < VLAN_TRUNK && z.vlan == a.vlan && trunkOut.vlan == trunkIn.vlan == VLAN_TRUNK
    requires Parse(data).Some? && IngressKey(a, Parse(data).value).Some?
    requires !trunkOut.disabled && !z.disabled
    requires !(a.isolated && trunkOut.isolated) && !(trunkIn.isolated && z.isolated)
    ensures var f := Parse(data).value; var key := IngressKey(a, f).value;
            EgressEligible(a, trunkOut, key) &&
            var wire := EgressFrame(f, key, trunkOut);
            Parse(wire).Some? && IngressKey(trunkIn, Parse(wire).value) == Some(key) &&
            EgressEligible(trunkIn, z, key) && EgressFrame(Parse(wire).value, key, z) == data
            && DstMAC(wire) == DstMAC(data) && SrcMAC(wire) == SrcMAC(data)
  {
    var f := Parse(data).value;
    var v := a.vlan;
    if v != UNTAGGED_KEY {
      var wire := EgressFrame(f, v, trunkOut);
      assert wire[..12] == data[..12] && wire[16..] == data[12..];
      assert Be16(wire, 12) == 0x8100 && Be16(wire, 14) == v;
      assert data == data[..12] + data[12..];
      assert wire[..6] == data[..6] && wire[6..12] == data[6..12];
    }
  }

  // --------------------------------------------------------- control frames

  predicate ReservedGroup(m: MAC) {
    m[0] == 0x01 && m[1] == 0x80 && m[2] == 0xc2 && m[3] == 0 && m[4] == 0 && m[5] < 16
  }

  /** An 802.1D BPDU: bridge group address, 802.3 length field, LLC 42 42 03. */
  predicate IsBPDU(frame: Frame) {
    && ETH_HEADER + 3 <= |frame|
    && frame[..6] == [0x01, 0x80, 0xc2, 0, 0, 0]
    && Be16(frame, 12) <= 1500
    && frame[14] == 0x42 && frame[15] == 0x42 && frame[16] == 0x03
  }

  const LOOP_PROBE_DST: MAC := [0x03, 0x67, 0x76, 0x73, 0x77, 0x00]

  /** Value of the bytes read as one big-endian number. */
  function FromBE(b: seq<Byte>): nat {
    if b == [] then 0 else FromBE(b[..|b| - 1]) * 256 + b[|b| - 1]
  }

  predicate OwnLoopProbe(frame: Frame, instanceID: nat) {
    && 26 <= |frame|
    && Be16(frame, 12) == 0x88B5
    && FromBE(frame[14..18]) == 0x6776_7377
    && FromBE(frame[18..26]) == instanceID
  }
}
