/** client/src/local.rs: SOCKS5 UDP requests and responses (section 7 of RFC 1928). */
module Socks {
  import opened Common
  import opened HostText
  import opened Wire
  import opened Datagrams

  // ---------------------------------------------------------------- the packet format

  /** ATYP, DST.ADDR, DST.PORT: the address format again, but with empty domains and only valid UTF-8. */
  function DecodeSocksAddr(v6: V6, s: Bytes): Option<Addr> {
    if s != [] && s[0] == ADDR_TYPE_DOMAIN then
      var a := if |s| < 2 then None else HostAndPort(s[2..], s[1] as nat);
      if a.Some? && ValidUtf8(a.value.host) then a else None
    else DecodeAddr(v6, s)
  }

  /** RSV(2), ignored; FRAG(1), which must be zero; the address; everything else is payload. */
  function ParseSpec(v6: V6, packet: Bytes): Option<Datagram> {
    if |packet| < 4 || packet[2] != 0 then None
    else match DecodeSocksAddr(v6, packet[3..])
      case None => None
      case Some(a) => Some(Datagram(a.host, a.port, a.rest))
  }

  predicate IsIpText(v6: V6, host: Bytes) {
    ParseV4(host).Some? || v6.parse(host).Some?
  }

  /** The builder's address: IPv4, then IPv6, then a domain whose length byte wraps at 256. */
  function SocksAddr(v6: V6, host: Bytes, port: Port): Bytes {
    if ParseV4(host).Some? then [ADDR_TYPE_IPV4] + ParseV4(host).value + U16Bytes(port)
    else if v6.parse(host).Some? then [ADDR_TYPE_IPV6] + v6.parse(host).value + U16Bytes(port)
    else [ADDR_TYPE_DOMAIN, (|host| % 256) as Byte] + host + U16Bytes(port)
  }

  function BuildSpec(v6: V6, d: Datagram): Bytes {
    [0, 0, 0] + SocksAddr(v6, d.host, d.port) + d.payload
  }

  // ---------------------------------------------------------------- the code

  /** `parse_socks5_udp_request`: never reads outside the packet, whatever it holds. */
  method ParseSocks5UdpRequest(v6: V6, packet: Bytes) returns (r: Option<Datagram>)
    ensures r == ParseSpec(v6, packet)
  {
    if |packet| < 4 || packet[2] != 0 {
      return None;
    }
    var offset := 3;
    var atyp := packet[offset];
    offset := offset + 1;
    ghost var s := packet[3..];
    var host: Bytes;
    var port: Port;
    if atyp == 1 {
      if |packet| < offset + 4 + 2 {
        return None;
      }
      SliceOf(packet, offset, 4);
      assert s[1..] == packet[offset..];
      host := PrintV4(packet[offset..offset + 4]);
      offset := offset + 4;
    } else if atyp == 3 {
      if |packet| <= offset {
        return None;
      }
      var dlen := packet[offset] as nat;
      offset := offset + 1;
      if |packet| < offset + dlen + 2 {
        return None;
      }
      SliceOf(packet, offset, dlen);
      assert s[2..] == packet[offset..];
      host := packet[offset..offset + dlen];
      if !ValidUtf8(host) {
        return None;
      }
      offset := offset + dlen;
    } else if atyp == 4 {
      if |packet| < offset + 16 + 2 {
        return None;
      }
      SliceOf(packet, offset, 16);
      assert s[1..] == packet[offset..];
      host := v6.show(packet[offset..offset + 16]);
      offset := offset + 16;
    } else {
      return None;
    }
    port := U16Of([packet[offset], packet[offset + 1]]);
    offset := offset + 2;
    if |packet| < offset {
      assert false;
    }
    r := Some(Datagram(host, port, packet[offset..]));
  }

  lemma SliceOf(packet: Bytes, k: nat, n: nat)
    requires k + n + 2 <= |packet|
    ensures HostAndPort(packet[k..], n) ==
            Some(Addr(packet[k..k + n], U16Of([packet[k + n], packet[k + n + 1]]), packet[k + n + 2..]))
  {
    var t := packet[k..];
    assert t[..n] == packet[k..k + n] && t[n..n + 2] == [packet[k + n], packet[k + n + 1]];
    assert t[n + 2..] == packet[k + n + 2..];
  }

  /** `build_socks5_udp_packet`. */
  method BuildSocks5UdpPacket(v6: V6, host: Bytes, port: Port, payload: Bytes) returns (packet: Bytes)
    ensures packet == BuildSpec(v6, Datagram(host, port, payload))
  {
    packet := [0, 0, 0];
    var v4, ip := ParseV4(host), v6.parse(host);
    if v4.Some? {
      packet := packet + [0x01];
      packet := packet + v4.value;
    } else if ip.Some? {
      packet := packet + [0x04];
      packet := packet + ip.value;
    } else {
      packet := packet + [0x03];
      packet := packet + [(|host| % 256) as Byte];
      packet := packet + host;
    }
    packet := packet + U16Bytes(port);
    assert packet == [0, 0, 0] + SocksAddr(v6, host, port);
    packet := packet + payload;
  }

  // ---------------------------------------------------------------- laws

  /** Whenever the stream encoder accepts a host, the SOCKS5 packet is three zero bytes, its bytes and the payload. */
  lemma BuildAgreesWithTrojanc(v6: V6, d: Datagram)
    requires Lawful(v6) && EncodeAddr(v6, d.host, d.port).Some?
    ensures BuildSpec(v6, d) == [0, 0, 0] + EncodeAddr(v6, d.host, d.port).value + d.payload
  {
    if ParseV4(d.host).Some? {
      V4HasNoColon(d.host);
    }
  }

  /** The parser inverts the builder if and only if the host is an IP address or has at most 255 bytes. */
  lemma ParseInvertsBuildIff(v6: V6, d: Datagram)
    requires Lawful(v6) && (IsIpText(v6, d.host) || ValidUtf8(d.host))
    ensures ParseSpec(v6, BuildSpec(v6, d)) == Some(CanonDatagram(v6, d)) <==> IsIpText(v6, d.host) || |d.host| <= 255
  {
    hide ParseSpec, SocksAddr, DecodeSocksAddr, ValidUtf8, Lawful, Canon;
    var a := SocksAddr(v6, d.host, d.port) + d.payload;
    assert BuildSpec(v6, d) == [0, 0, 0] + a;
    AddressOfPacket(v6, a);
    if IsIpText(v6, d.host) {
      IpAddressReadBack(v6, d);
    } else if |d.host| <= 255 {
      DomainReadBack(v6, d);
    } else {
      LongHostReadBack(v6, d);
    }
  }

  lemma AddressOfPacket(v6: V6, a: Bytes)
    ensures ParseSpec(v6, [0, 0, 0] + a).Some? == DecodeSocksAddr(v6, a).Some?
    ensures DecodeSocksAddr(v6, a).Some? ==>
              var x := DecodeSocksAddr(v6, a).value;
              ParseSpec(v6, [0, 0, 0] + a) == Some(Datagram(x.host, x.port, x.rest))
  {}

  lemma IpAddressReadBack(v6: V6, d: Datagram)
    requires Lawful(v6) && IsIpText(v6, d.host)
    ensures DecodeSocksAddr(v6, SocksAddr(v6, d.host, d.port) + d.payload)
        == Some(Addr(Canon(v6, d.host), d.port, d.payload))
  {
    hide ValidUtf8;
    if ParseV4(d.host).Some? {
      V4HasNoColon(d.host);
      V4IsCanonical(d.host);
      Framed([ADDR_TYPE_IPV4], ParseV4(d.host).value, d.port, d.payload);
    } else {
      Framed([ADDR_TYPE_IPV6], v6.parse(d.host).value, d.port, d.payload);
    }
  }

  lemma DomainReadBack(v6: V6, d: Datagram)
    requires Lawful(v6) && !IsIpText(v6, d.host) && |d.host| <= 255 && ValidUtf8(d.host)
    ensures DecodeSocksAddr(v6, SocksAddr(v6, d.host, d.port) + d.payload)
        == Some(Addr(Canon(v6, d.host), d.port, d.payload))
  {
    hide ValidUtf8;
    Framed([ADDR_TYPE_DOMAIN, |d.host| as Byte], d.host, d.port, d.payload);
  }

  /** A longer domain comes back cut to the wrapped length. */
  lemma LongHostReadBack(v6: V6, d: Datagram)
    requires !IsIpText(v6, d.host) && |d.host| > 255
    ensures var r := DecodeSocksAddr(v6, SocksAddr(v6, d.host, d.port) + d.payload);
            r.Some? ==> |r.value.host| == |d.host| % 256 < |Canon(v6, d.host)|
  {
    hide ValidUtf8;
  }

  /** Building what was parsed gives the packet back if and only if its reserved bytes were zero and its domain, if any,
      was not an IP address in disguise. */
  lemma BuildInvertsParseIff(v6: V6, packet: Bytes)
    requires Lawful(v6) && ParseSpec(v6, packet).Some?
    ensures var d := ParseSpec(v6, packet).value;
            BuildSpec(v6, d) == packet <==>
            packet[0] == 0 && packet[1] == 0 && !(packet[3] == ADDR_TYPE_DOMAIN && IsIpText(v6, d.host))
  {
    var d, s := ParseSpec(v6, packet).value, packet[3..];
    AddrInvertsIff(v6, s);
    hide ParseSpec, DecodeSocksAddr, SocksAddr, Lawful;
    var again := SocksAddr(v6, d.host, d.port);
    var n := |s| - |d.payload|;
    if s[0] == ADDR_TYPE_DOMAIN && IsIpText(v6, d.host) {
      assert BuildSpec(v6, d)[3] == again[0] != packet[3];
    } else {
      Split(packet, again, n);
    }
  }

  lemma AddrInvertsIff(v6: V6, s: Bytes)
    requires Lawful(v6) && DecodeSocksAddr(v6, s).Some?
    ensures var a := DecodeSocksAddr(v6, s).value;
            var again := SocksAddr(v6, a.host, a.port);
            && |a.rest| <= |s| && a.rest == s[|s| - |a.rest|..] && again != []
            && if s[0] == ADDR_TYPE_DOMAIN && IsIpText(v6, a.host) then again[0] != s[0]
               else again == s[..|s| - |a.rest|]
  {
    hide ValidUtf8;
    if s[0] == ADDR_TYPE_DOMAIN {
      DomainInvertsIff(v6, s);
    } else {
      IpInverts(v6, s);
    }
  }

  lemma IpInverts(v6: V6, s: Bytes)
    requires Lawful(v6) && DecodeAddr(v6, s).Some? && s[0] != ADDR_TYPE_DOMAIN
    ensures var a := DecodeAddr(v6, s).value;
            && |a.rest| <= |s| && a.rest == s[|s| - |a.rest|..]
            && SocksAddr(v6, a.host, a.port) == s[..|s| - |a.rest|] && |a.rest| < |s|
  {
    var a := DecodeAddr(v6, s).value;
    if s[0] == ADDR_TYPE_IPV4 {
      var ip := s[1..5];
      assert s[1..][..4] == ip;
      V4RoundTrip(ip);
      Consumed(s, 1, 4);
      assert s[..1] == [ADDR_TYPE_IPV4] && s[7..] == s[1..][6..];
    } else {
      var ip := s[1..17];
      assert s[1..][..16] == ip;
      assert v6.parse(v6.show(ip)) == Some(ip) && COLON in v6.show(ip);
      NoV4WithColon(v6.show(ip));
      Consumed(s, 1, 16);
      assert s[..1] == [ADDR_TYPE_IPV6] && s[19..] == s[1..][18..];
    }
  }

  lemma DomainInvertsIff(v6: V6, s: Bytes)
    requires DecodeSocksAddr(v6, s).Some? && s[0] == ADDR_TYPE_DOMAIN
    ensures var a := DecodeSocksAddr(v6, s).value;
            var again := SocksAddr(v6, a.host, a.port);
            && |a.rest| <= |s| && a.rest == s[|s| - |a.rest|..] && again != []
            && if IsIpText(v6, a.host) then again[0] != s[0] else again == s[..|s| - |a.rest|]
  {
    hide ValidUtf8, ParseV4, PrintV4;
    var n := s[1] as nat;
    assert s[2..][..n] == s[2..2 + n] && s[..2] == [ADDR_TYPE_DOMAIN, s[1]];
    Consumed(s, 2, n);
    assert s[2 + n + 2..] == s[2..][n + 2..];
  }

  lemma NoV4WithColon(s: Bytes)
    requires COLON in s
    ensures ParseV4(s).None?
  {
    if ParseV4(s).Some? {
      V4HasNoColon(s);
    }
  }

  lemma Split(packet: Bytes, again: Bytes, n: nat)
    requires 3 + n <= |packet| && packet[2] == 0 && again == packet[3..][..n]
    ensures [0, 0, 0] + again + packet[3..][n..] == packet <==> packet[0] == 0 && packet[1] == 0
  {}

  /** From the server's socket to the application: the packet names the canonical source and carries the same bytes. */
  lemma ResponseReachesTheApplication(v6: V6, x: Response)
    requires Lawful(v6) && |x.data| <= 65535
    ensures ParseSpec(v6, BuildSpec(v6, AsDatagram(v6, x))) == Some(AsDatagram(v6, x))
  {
    var d, ip := AsDatagram(v6, x), ToCanonical(x.ip);
    if |ip| == 4 {
      V4RoundTrip(ip);
    } else {
      assert v6.parse(v6.show(ip)) == Some(ip);
    }
    ResponseEncodable(v6, x);
    ParseInvertsBuildIff(v6, d);
  }

  /** From the application to the server: a request whose host the stream can carry arrives with its host in canonical
      form; the only requests it cannot carry are those with an empty domain or one with a colon that is no IPv6
      address. */
  lemma RequestReachesTheServer(v6: V6, packet: Bytes)
    requires Lawful(v6) && ParseSpec(v6, packet).Some? && |packet| <= 65535
    ensures var d := ParseSpec(v6, packet).value;
            && (EncodeDatagram(v6, d).None? <==> d.host == [] || (COLON in d.host && v6.parse(d.host).None?))
            && (EncodeDatagram(v6, d).Some? ==>
                  DecodeDatagram(v6, EncodeDatagram(v6, d).value) == Some((CanonDatagram(v6, d), [])))
  {
    var d := ParseSpec(v6, packet).value;
    Shorter(v6, packet);
    if EncodeDatagram(v6, d).Some? {
      hide ParseSpec, EncodeAddr, DecodeAddr;
      DatagramRoundTrip(v6, d, []);
      assert EncodeDatagram(v6, d).value + [] == EncodeDatagram(v6, d).value;
    }
  }

  lemma Shorter(v6: V6, packet: Bytes)
    requires Lawful(v6) && ParseSpec(v6, packet).Some?
    ensures var d := ParseSpec(v6, packet).value;
            |d.payload| < |packet| && (|d.host| <= 255 || IsIpText(v6, d.host))
  {
    var s := packet[3..];
    if s[0] == ADDR_TYPE_IPV4 {
      V4RoundTrip(s[1..][..4]);
    } else if s[0] == ADDR_TYPE_IPV6 {
      assert v6.parse(v6.show(s[1..][..16])).Some?;
    }
  }
}
