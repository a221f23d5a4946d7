/**
 UDP datagrams on the Kotlin side of the tunnel (section 7 of RFC 1928), and what each side makes
 of the other's.
 */
module RelayUdp {
  import opened Bytes
  import opened Socks5Addr
  import opened UdpFraming
  import TlsClientHello

  /** `java.net.InetAddress` */
  datatype Inet = Inet4(raw: seq<byte>) | Inet6(raw: seq<byte>)

  predicate Proper(a: Inet) {
    |a.raw| == (if a.Inet4? then 4 else 16) && (a.Inet6? ==> !Mapped(a.raw))
  }

  /** An IPv4-mapped IPv6 address. */
  predicate Mapped(raw: seq<byte>) {
    |raw| == 16 && (forall i :: 0 <= i < 10 ==> raw[i] == 0) && raw[10] == raw[11] == 0xFF
  }

  /** `InetAddress.getByAddress`: a mapped address becomes an IPv4 one. */
  function ByAddress(raw: seq<byte>): (a: Inet)
    requires |raw| == 4 || |raw| == 16
    ensures Proper(a)
  {
    if |raw| == 4 then Inet4(raw) else if Mapped(raw) then Inet4(raw[12..]) else Inet6(raw)
  }

  /** The address and port as the C side writes them. */
  function AddrOf(a: Inet, port: nat): Addr {
    match a
    case Inet4(raw) => V4(raw, port)
    case Inet6(raw) => V6(raw, port)
  }

  /** What a packet asks for; the lookup of a name may throw. */
  datatype Outcome =
    | Request(address: Inet, port: nat, payload: seq<byte>)
    | Ignored
    | UnknownHost

  /** Name lookup. */
  type Lookup = string -> Option<Inet>

  function Parse(p: seq<byte>, lookup: Lookup): Outcome {
    if |p| < 4 || p[0] != 0 || p[1] != 0 || p[2] != 0 then Ignored else ParseAddress(p[3], p[4..], lookup)
  }

  /** From behind the address type on. */
  function ParseAddress(kind: byte, b: seq<byte>, lookup: Lookup): Outcome {
    if kind == IPV4 then (if |b| < 4 then Ignored else WithPort(Some(ByAddress(b[..4])), b[4..]))
    else if kind == IPV6 then (if |b| < 16 then Ignored else WithPort(Some(ByAddress(b[..16])), b[16..]))
    else if kind == NAME then
      if |b| < 1 || |b| < 1 + b[0] as int then Ignored
      else WithPort(lookup(TlsClientHello.Ascii(b[1..1 + b[0] as int])), b[1 + b[0] as int..])
    else Ignored
  }

  /** The port and the payload. An unknown host throws before they are looked at. */
  function WithPort(a: Option<Inet>, rest: seq<byte>): Outcome {
    if a.None? then UnknownHost
    else if |rest| < 2 then Ignored
    else Request(a.value, U16(rest, 0), rest[2..])
  }

  /** `encodeUdpResponse` */
  function Response(a: Inet, port: nat, payload: seq<byte>): seq<byte> {
    [0, 0, 0, if a.Inet4? then IPV4 else IPV6] + a.raw + Port(port) + payload
  }

  // ---------------------------------------------------------------- across the two sides

  lemma ParseOf(kind: byte, b: seq<byte>, lookup: Lookup)
    ensures Parse([0, 0, 0, kind] + b, lookup) == ParseAddress(kind, b, lookup)
  {
    hide ParseAddress;
    assert ([0, 0, 0, kind] + b)[4..] == b;
  }

  lemma PortPayload(a: Option<Inet>, port: nat, data: seq<byte>)
    requires port < 0x1_0000
    ensures WithPort(a, Port(port) + data) == if a.None? then UnknownHost else Request(a.value, port, data)
  {
    PortBack(port, data);
    assert (Port(port) + data)[2..] == data;
    hide U16;
  }

  lemma NumericWrapped(a: Addr, data: seq<byte>)
    requires WellFormed(a) && !a.Domain?
    ensures Wrapped(Msg(Encode(a), data)) ==
      [0, 0, 0, if a.V4? then IPV4 else IPV6] + (a.ip + (Port(a.port) + data))
  {
    hide Port;
  }

  lemma NameWrapped(a: Addr, data: seq<byte>)
    requires WellFormed(a) && a.Domain?
    ensures Wrapped(Msg(Encode(a), data)) == [0, 0, 0, NAME] + ([|a.name|] + a.name + (Port(a.port) + data))
  {
    hide Port;
  }

  lemma NumericParsed(kind: byte, ip: seq<byte>, rest: seq<byte>, lookup: Lookup)
    requires (kind == IPV4 && |ip| == 4) || (kind == IPV6 && |ip| == 16)
    ensures ParseAddress(kind, ip + rest, lookup) == WithPort(Some(ByAddress(ip)), rest)
  {
    hide ByAddress, WithPort;
    var b := ip + rest;
    assert b[..|ip|] == ip && b[|ip|..] == rest;
  }

  /** A datagram from the C side is understood: the address is the one sent, unless it is
      IPv4-mapped, when it is the IPv4 address inside. */
  lemma SentIsParsed(a: Addr, data: seq<byte>, lookup: Lookup)
    requires WellFormed(a) && !a.Domain?
    ensures Parse(Wrapped(Msg(Encode(a), data)), lookup) == Request(ByAddress(a.ip), a.port, data)
  {
    hide Port, ByAddress, Encode, Wrapped, Parse, ParseAddress, WithPort;
    var kind := if a.V4? then IPV4 else IPV6;
    var rest := Port(a.port) + data;
    NumericWrapped(a, data);
    ParseOf(kind, a.ip + rest, lookup);
    NumericParsed(kind, a.ip, rest, lookup);
    PortPayload(Some(ByAddress(a.ip)), a.port, data);
  }

  /** So the address comes back unchanged just if it is not mapped. */
  lemma UnchangedIffNotMapped(a: Addr)
    requires WellFormed(a) && !a.Domain?
    ensures AddrOf(ByAddress(a.ip), a.port) == a <==> !(a.V6? && Mapped(a.ip))
  {
  }

  /** The address ::ffff:1.2.3.4 comes through as 1.2.3.4. */
  lemma MappedChanges(port: nat, data: seq<byte>, lookup: Lookup)
    requires port < 0x1_0000
    ensures var a := V6([0, 0, 0, 0, 0, 0, 0, 0, 0, 0, 0xFF, 0xFF, 1, 2, 3, 4], port);
      Parse(Wrapped(Msg(Encode(a), data)), lookup) == Request(Inet4([1, 2, 3, 4]), port, data)
  {
    var ip: seq<byte> := [0, 0, 0, 0, 0, 0, 0, 0, 0, 0, 0xFF, 0xFF, 1, 2, 3, 4];
    SentIsParsed(V6(ip, port), data, lookup);
    assert Mapped(ip) && ip[12..] == [1, 2, 3, 4];
    hide Parse, Encode, Wrapped;
  }

  lemma NameThenRest(name: seq<byte>, rest: seq<byte>)
    requires |name| < 256
    ensures var b := [|name| as byte] + name + rest;
      b[1..1 + |name|] == name && b[1 + |name|..] == rest
  {
  }

  lemma NameParsed(name: seq<byte>, rest: seq<byte>, lookup: Lookup)
    requires |name| < 256
    ensures ParseAddress(NAME, [|name| as byte] + name + rest, lookup) ==
      WithPort(lookup(TlsClientHello.Ascii(name)), rest)
  {
    hide TlsClientHello.Ascii, WithPort;
    NameThenRest(name, rest);
  }

  /** A datagram with a name asks for the address the name is looked up to. */
  lemma NameIsLookedUp(a: Addr, data: seq<byte>, lookup: Lookup)
    requires WellFormed(a) && a.Domain?
    ensures var host := lookup(TlsClientHello.Ascii(a.name));
      Parse(Wrapped(Msg(Encode(a), data)), lookup) ==
        if host.None? then UnknownHost else Request(host.value, a.port, data)
  {
    hide Port, TlsClientHello.Ascii, Encode, Wrapped, Parse, ParseAddress, WithPort;
    var rest := Port(a.port) + data;
    NameWrapped(a, data);
    ParseOf(NAME, [|a.name|] + a.name + rest, lookup);
    NameParsed(a.name, rest, lookup);
    PortPayload(lookup(TlsClientHello.Ascii(a.name)), a.port, data);
  }

  /** An answer from the Kotlin side is understood by the C side. */
  lemma ResponseIsUnwrapped(a: Inet, port: nat, payload: seq<byte>)
    requires Proper(a) && port < 0x1_0000
    ensures Unwrap(Response(a, port, payload)) == Carries(Msg(Encode(AddrOf(a, port)), payload))
  {
    var m := Msg(Encode(AddrOf(a, port)), payload);
    EncodedLen(AddrOf(a, port), [], 0);
    assert m.addr + [] == m.addr;
    var d := Response(a, port, payload);
    assert d == [0, 0, 0] + m.addr + m.data && d[..3] == [0, 0, 0];
    UnwrapIffWrapped(d, m);
  }

  /** What one side sends to a numeric address comes back as from that address. */
  lemma ThereAndBack(a: Addr, data: seq<byte>, answer: seq<byte>, lookup: Lookup)
    requires WellFormed(a) && !a.Domain? && !(a.V6? && Mapped(a.ip))
    ensures var r := Parse(Wrapped(Msg(Encode(a), data)), lookup);
      && r.Request? && r.payload == data
      && Unwrap(Response(r.address, r.port, answer)) == Carries(Msg(Encode(a), answer))
  {
    SentIsParsed(a, data, lookup);
    UnchangedIffNotMapped(a);
    ResponseIsUnwrapped(ByAddress(a.ip), a.port, answer);
  }

  /** `hev_socks5_addr_from_sockaddr6`: the C side never writes a mapped address. */
  function FromSockaddr(raw: seq<byte>, port: nat): Addr
    requires |raw| == 16
  {
    if Mapped(raw) then V4(raw[12..], port) else V6(raw, port)
  }

  lemma SockaddrNeverMapped(raw: seq<byte>, port: nat)
    requires |raw| == 16 && port < 0x1_0000
    ensures var a := FromSockaddr(raw, port);
      WellFormed(a) && !(a.V6? && Mapped(a.ip)) && AddrOf(ByAddress(a.ip), port) == a == AddrOf(ByAddress(raw), port)
  {
  }

  // ---------------------------------------------------------------- the code in place

  lemma Cut(data: seq<byte>, start: nat, end: nat, i: nat, j: nat)
    requires start <= end <= |data| && i <= j <= end - start
    ensures data[start..end][i..j] == data[start + i..start + j] && data[start..end][j..] == data[start + j..end]
  {
    TlsClientHello.Slices(data, start, end, i, j - i);
  }

  method ParseUdpRequest(data: seq<byte>, start: nat, length: nat, lookup: Lookup) returns (r: Outcome)
    requires start + length <= |data|
    ensures r == Parse(data[start..start + length], lookup)
  {
    hide ParseAddress;
    var end := start + length;
    if length < 4 || data[start] != 0 || data[start + 1] != 0 {
      return Ignored;
    }
    if data[start + 2] != 0 {
      return Ignored;
    }
    var offset := start + 3;
    var kind := data[offset];
    offset := offset + 1;
    Cut(data, start, end, 4, 4);
    r := ParseDestination(data, kind, offset, end, lookup);
  }

  method ParseDestination(data: seq<byte>, kind: byte, start: nat, end: nat, lookup: Lookup) returns (r: Outcome)
    requires start <= end <= |data|
    ensures r == ParseAddress(kind, data[start..end], lookup)
  {
    hide WithPort;
    var offset := start;
    var address;
    if kind == IPV4 {
      if offset + 4 > end {
        return Ignored;
      }
      Cut(data, start, end, 0, 4);
      address := ByAddress(data[offset..offset + 4]);
      offset := offset + 4;
    } else if kind == IPV6 {
      if offset + 16 > end {
        return Ignored;
      }
      Cut(data, start, end, 0, 16);
      address := ByAddress(data[offset..offset + 16]);
      offset := offset + 16;
    } else if kind == NAME {
      if offset >= end {
        return Ignored;
      }
      var domainLength: nat := data[offset];
      offset := offset + 1;
      if offset + domainLength > end {
        return Ignored;
      }
      Cut(data, start, end, 1, 1 + domainLength);
      var host := lookup(TlsClientHello.Ascii(data[offset..offset + domainLength]));
      if host.None? {
        NoHost(data[offset + domainLength..end]);
        return UnknownHost;
      }
      address := host.value;
      offset := offset + domainLength;
    } else {
      return Ignored;
    }
    HostAndPort(address, data, offset, end);
    if offset + 2 > end {
      return Ignored;
    }
    var port := U16(data, offset);
    offset := offset + 2;
    r := Request(address, port, data[offset..end]);
  }

  lemma NoHost(rest: seq<byte>)
    ensures WithPort(None, rest) == UnknownHost
  {
  }

  lemma HostAndPort(a: Inet, data: seq<byte>, offset: nat, end: nat)
    requires offset <= end <= |data|
    ensures WithPort(Some(a), data[offset..end]) ==
      if offset + 2 > end then Ignored else Request(a, U16(data, offset), data[offset + 2..end])
  {
    if offset + 2 <= end {
      Cut(data, offset, end, 2, 2);
    }
  }

  method EncodeUdpResponse(address: Inet, port: nat, payload: seq<byte>) returns (result: array<byte>)
    requires Proper(address) && port < 0x1_0000
    ensures fresh(result) && result[..] == Response(address, port, payload)
  {
    var rawAddress := address.raw;
    result := new byte[4 + |rawAddress| + 2 + |payload|](_ => 0);
    result[3] := if address.Inet4? then IPV4 else IPV6;
    var portOffset := 4 + |rawAddress|;
    forall k | 0 <= k < |rawAddress| {
      result[4 + k] := rawAddress[k];
    }
    result[portOffset], result[portOffset + 1] := port / 256 % 256, port % 256;
    forall k | 0 <= k < |payload| {
      result[portOffset + 2 + k] := payload[k];
    }
  }
}
