/** Ports of a switch: policy attributes, registry entries and the spanning-tree gate on the data path. */
module SwitchPorts {
  import opened Wrappers
  import opened Storm

  type Byte = x: int | 0 <= x < 256
  type MAC = m: seq<Byte> | |m| == 6 witness [0, 0, 0, 0, 0, 0]

  function Zeros(n: nat): (z: seq<Byte>)
    ensures |z| == n
  {
    seq(n, _ => 0)
  }

  const VLAN_TRUNK := 4095

  /** A registry entry is identified by a handle; a port ID can be reused, a handle cannot. */
  type Handle = nat

  datatype PortState = Forwarding | Blocking | Listening | Learning

  datatype PortAttrs = PortAttrs(
    securityMAC: Option<MAC>, isolated: bool, vlan: nat, disabled: bool,
    bpduGuard: bool, stormPPS: nat, stp: bool, stpCost: nat, stpPriority: nat)
  {
    predicate Valid() { vlan <= VLAN_TRUNK && stpCost < 0x1_0000_0000 && stpPriority < 256 }

    function PathCost(): nat { if stpCost > 0 then stpCost else 100 }
  }

  datatype PortEntry = PortEntry(
    id: string, attrs: PortAttrs, gone: bool, stpState: PortState, portNum: nat, storm: Bucket)
  {
    /** Port priority in the high byte, the low eight bits of the port number in the low byte. */
    function StpPortID(): nat {
      (if attrs.stpPriority == 0 then 128 else attrs.stpPriority) * 256 + portNum % 256
    }
  }
}
