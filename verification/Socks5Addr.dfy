/** SOCKS5 addresses as they lie in memory and on the wire (section 5 of RFC 1928). */
module Socks5Addr {
  import opened Bytes

  const IPV4: byte := 1
  const NAME: byte := 3
  const IPV6: byte := 4

  /** An address and its port, in network order. */
  datatype Addr =
    | V4(ip: seq<byte>, port: nat)
    | V6(ip: seq<byte>, port: nat)
    | Domain(name: seq<byte>, port: nat)

  predicate WellFormed(a: Addr) {
    && a.port < 0x1_0000
    && (a.V4? ==> |a.ip| == 4) && (a.V6? ==> |a.ip| == 16) && (a.Domain? ==> |a.name| < 256)
  }

  function Port(p: nat): seq<byte> {
    [p / 256 % 256, p % 256]
  }

  function Encode(a: Addr): (b: seq<byte>)
    ensures WellFormed(a) ==> |b| <= 259
  {
    match a
    case V4(ip, port) => [IPV4] + ip + Port(port)
    case V6(ip, port) => [IPV6] + ip + Port(port)
    case Domain(name, port) => [NAME, |name| % 256] + name + Port(port)
  }

  /** `hev_socks5_addr_len`; None for an unknown type. Past the end of `b` there is whatever the
      memory holds, here `stale`. */
  function AddrLen(b: seq<byte>, stale: byte): (n: Option<nat>)
    requires b != []
    ensures n.Some? ==> 4 <= n.value <= 259
  {
    if b[0] == IPV4 then Some(7)
    else if b[0] == IPV6 then Some(19)
    else if b[0] == NAME then Some(4 + (if |b| > 1 then b[1] else stale))
    else None
  }

  function U16(b: seq<byte>, offset: nat): (n: nat)
    requires offset + 2 <= |b|
    ensures n < 0x1_0000
  {
    var high: int := b[offset];
    high * 256 + b[offset + 1]
  }

  lemma PortBack(p: nat, tail: seq<byte>)
    requires p < 0x1_0000
    ensures U16(Port(p) + tail, 0) == p
  {
    assert p / 256 % 256 * 256 + p % 256 == p;
  }

  lemma EncodedLen(a: Addr, tail: seq<byte>, stale: byte)
    requires WellFormed(a)
    ensures Encode(a) != [] && AddrLen(Encode(a) + tail, stale) == Some(|Encode(a)|)
  {
  }

  /** The address that `b` is, of exactly its length. */
  function Decode(b: seq<byte>): Option<Addr>
  {
    if b == [] || AddrLen(b, 0) != Some(|b|) then None
    else
      var port := U16(b, |b| - 2);
      if b[0] == IPV4 then Some(V4(b[1..5], port))
      else if b[0] == IPV6 then Some(V6(b[1..17], port))
      else Some(Domain(b[2..|b| - 2], port))
  }

  lemma DecodeEncode(a: Addr)
    requires WellFormed(a)
    ensures Decode(Encode(a)) == Some(a)
  {
    var b := Encode(a);
    EncodedLen(a, [], 0);
    assert b + [] == b;
    PortBack(a.port, []);
    assert b[|b| - 2..] == Port(a.port) && Port(a.port) + [] == Port(a.port);
    match a
    case V4(ip, _) => assert b[1..5] == ip;
    case V6(ip, _) => assert b[1..17] == ip;
    case Domain(name, _) => assert b[2..|b| - 2] == name;
  }

  lemma EncodeDecode(b: seq<byte>)
    requires Decode(b).Some?
    ensures WellFormed(Decode(b).value) && Encode(Decode(b).value) == b
  {
    var n := |b|;
    PortOf(b);
    assert if b[0] == IPV4 then n == 7 else if b[0] == IPV6 then n == 19 else b[0] == NAME && n == 4 + b[1] as int;
    hide Port, U16, AddrLen;
    var front := b[..n - 2];
    if b[0] == IPV4 {
      assert front == [IPV4] + b[1..5];
    } else if b[0] == IPV6 {
      assert front == [IPV6] + b[1..17];
    } else {
      assert front == [NAME, b[1]] + b[2..n - 2];
    }
  }

  lemma PortOf(b: seq<byte>)
    requires |b| >= 2
    ensures b == b[..|b| - 2] + Port(U16(b, |b| - 2))
  {
    var high: int, low := b[|b| - 2], b[|b| - 1];
    assert (high * 256 + low) / 256 == high && (high * 256 + low) % 256 == low;
  }
}
