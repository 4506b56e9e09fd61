/** The vocabulary shared by the four NAT programs: addresses, packets and the 16-bit port counter. */
module NatTypes {

  type Ip = x: nat | x < 0x1_0000_0000
  type Port = x: nat | x < 65536

  datatype Option<+T> = None | Some(value: T)

  datatype Endpoint = Endpoint(ip: Ip, port: Port)

  /** The address fields of a packet. */
  datatype Header = Header(src: Endpoint, dst: Endpoint)

  /** The lookup key of a flow: both endpoints as the sender wrote them. */
  datatype FlowKey = FlowKey(src: Endpoint, dst: Endpoint)

  const PUBLIC_IP: Ip := 0x0A000001

  /** `next_port++` on a `uint16_t`. */
  function NextPort(p: Port): Port {
    if p == 65535 then 0 else p + 1
  }

  /** The port handed to the flow that is allocated as number `serial` (0, 1, 2, ...): the counter starts at 10000. */
  function PortOf(serial: nat): Port {
    if serial == 0 then 10000 else NextPort(PortOf(serial - 1))
  }

  function Public(serial: nat): Endpoint {
    Endpoint(PUBLIC_IP, PortOf(serial))
  }

  /** The counter after any number of allocations, through any number of wraps. */
  lemma {:induction false} PortIsModular(serial: nat)
    ensures PortOf(serial) == (10000 + serial) % 65536
  {
    if serial > 0 { PortIsModular(serial - 1); }
  }

  /** The public endpoint of an allocation: 10.0.0.1 and the counter as it then stood. */
  lemma PublicIs(serial: nat)
    ensures Public(serial) == Endpoint(0x0A000001, (10000 + serial) % 65536)
  {
    PortIsModular(serial);
  }

  /** Two allocations get the same port exactly when they are a multiple of 65536 apart. */
  lemma SamePort(i: nat, j: nat)
    requires i <= j
    ensures PortOf(i) == PortOf(j) <==> (j - i) % 65536 == 0
  {
    PortIsModular(i);
    PortIsModular(j);
    ModDifference(10000 + i, 10000 + j);
  }

  /** Within one turn of the counter no port comes twice. */
  lemma NearPorts(i: nat, j: nat)
    requires -65536 < i - j < 65536
    ensures PortOf(i) == PortOf(j) <==> i == j
  {
    SamePort(if i <= j then i else j, if i <= j then j else i);
  }

  lemma ModDifference(a: nat, b: nat)
    requires a <= b
    ensures a % 65536 == b % 65536 <==> (b - a) % 65536 == 0
  {
    var q, r := b / 65536 - a / 65536, b % 65536 - a % 65536;
    assert b - a == 65536 * q + r && -65536 < r < 65536;
  }

  /** `a - b` on `uint64_t` counters that follow an unbounded clock. */
  function Since(now: nat, past: nat): (d: nat)
    ensures d < 0x1_0000_0000_0000_0000 && exists wraps: int :: d + wraps * 0x1_0000_0000_0000_0000 == now - past
    ensures past <= now && now - past < 0x1_0000_0000_0000_0000 ==> d == now - past
    ensures past <= now ==> d <= now - past
  {
    assert (now - past) % 0x1_0000_0000_0000_0000 + (now - past) / 0x1_0000_0000_0000_0000 * 0x1_0000_0000_0000_0000 == now - past;
    (now - past) % 0x1_0000_0000_0000_0000
  }

  /** `struct packet`: the NAT rewrites its fields in place. */
  class Packet {
    var srcIp: Ip
    var srcPort: Port
    var dstIp: Ip
    var dstPort: Port

    constructor (h: Header)
      ensures Fields() == h
    {
      srcIp, srcPort, dstIp, dstPort := h.src.ip, h.src.port, h.dst.ip, h.dst.port;
    }

    function Fields(): Header
      reads this
    {
      Header(Endpoint(srcIp, srcPort), Endpoint(dstIp, dstPort))
    }
  }
}
