/** common/src/protocol.rs: the trojanc address, the proxy header and the underlay metadata.

    `EncodeAddr` and `DecodeAddr` are the address format as values; the builders push into a byte
    vector, the readers advance a stream, and both are proved against them. Hosts are the bytes of a string. */
module Wire {
  import opened Common
  import opened HostText

  const NETWORK_UDP: Byte := 3
  const ADDR_TYPE_IPV4: Byte := 1
  const ADDR_TYPE_MSG: Byte := 2
  const ADDR_TYPE_DOMAIN: Byte := 3
  const ADDR_TYPE_IPV6: Byte := 4
  const ADDR_TYPE_NONE: Byte := 255

  type Port = p: int | 0 <= p < 0x1_0000

  /** `to_be_bytes` and `from_be_bytes` of a `u16`. */
  function U16Bytes(p: Port): (b: Bytes)
    ensures |b| == 2
  {
    [(p / 256) as Byte, (p % 256) as Byte]
  }

  function U16Of(b: Bytes): Port
    requires |b| == 2
  {
    b[0] as int * 256 + b[1] as int
  }

  lemma U16RoundTrip(p: Port)
    ensures U16Of(U16Bytes(p)) == p
  {}

  // ---------------------------------------------------------------- the format

  /** [addr_type][addr][port], or `None` for a host that cannot be encoded. */
  function EncodeAddr(v6: V6, host: Bytes, port: Port): Option<Bytes> {
    if COLON in host then
      match v6.parse(host)
      case Some(ip) => Some([ADDR_TYPE_IPV6] + ip + U16Bytes(port))
      case None => None
    else match ParseV4(host)
      case Some(ip) => Some([ADDR_TYPE_IPV4] + ip + U16Bytes(port))
      case None =>
        if 0 < |host| <= 255 then Some([ADDR_TYPE_DOMAIN, |host| as Byte] + host + U16Bytes(port)) else None
  }

  datatype Addr = Addr(host: Bytes, port: Port, rest: Bytes)

  /** `n` bytes of host, then the port. */
  function HostAndPort(s: Bytes, n: nat): Option<Addr> {
    if |s| < n + 2 then None else Some(Addr(s[..n], U16Of(s[n..n + 2]), s[n + 2..]))
  }

  function WithHost(a: Option<Addr>, render: Bytes --> Bytes): Option<Addr>
    requires a.Some? ==> render.requires(a.value.host)
  {
    match a case None => None case Some(x) => Some(x.(host := render(x.host)))
  }

  /** One address from the front of `s`. */
  function DecodeAddr(v6: V6, s: Bytes): Option<Addr> {
    if s == [] then None
    else if s[0] == ADDR_TYPE_IPV4 then WithHost(HostAndPort(s[1..], 4), (ip: Bytes) requires |ip| == 4 => PrintV4(ip))
    else if s[0] == ADDR_TYPE_IPV6 then WithHost(HostAndPort(s[1..], 16), v6.show)
    else if s[0] == ADDR_TYPE_DOMAIN then
      if |s| < 2 || s[1] == 0 then None else HostAndPort(s[2..], s[1] as nat)
    else None
  }

  /** The proxy header: [network] and an address, which may be missing (type 255) or an empty domain. */
  function EncodeHeader(v6: V6, network: Byte, host: Bytes, port: Port): Option<Bytes> {
    if host == [] then Some([network, ADDR_TYPE_NONE])
    else match EncodeAddr(v6, host, port)
      case Some(e) => Some([network] + e)
      case None => None
  }

  function DecodeHeader(v6: V6, s: Bytes): Option<(Byte, Addr)> {
    if |s| < 2 then None
    else if s[1] == ADDR_TYPE_NONE then Some((s[0], Addr([], 0, s[2..])))
    else
      var a := if s[1] == ADDR_TYPE_DOMAIN && |s| >= 3
          && s[2] == 0 then HostAndPort(s[3..], 0) else DecodeAddr(v6, s[1..]);
      match a case Some(x) => Some((s[0], x)) case None => None
  }

  /** Underlay metadata tries IPv4, then IPv6, then takes anything up to 255 bytes as a domain. */
  function EncodeUnderlay(v6: V6, host: Bytes, port: Port): Option<Bytes> {
    if ParseV4(host).Some? then Some([ADDR_TYPE_IPV4] + ParseV4(host).value + U16Bytes(port))
    else if v6.parse(host).Some? then Some([ADDR_TYPE_IPV6] + v6.parse(host).value + U16Bytes(port))
    else if |host| <= 255 then Some([ADDR_TYPE_DOMAIN, |host| as Byte] + host + U16Bytes(port))
    else None
  }

  /** What a peer reads back: IPv6 text comes out in its printed form, everything else unchanged. */
  function Canon(v6: V6, host: Bytes): Bytes {
    if COLON in host && v6.parse(host).Some? then
      v6.show(v6.parse(host).value)
    else host
  }

  // ---------------------------------------------------------------- laws of the address format

  /** Decoding consumes exactly one encoded address and yields its host and port. */
  lemma AddrRoundTrip(v6: V6, host: Bytes, port: Port, tail: Bytes)
    requires Lawful(v6) && EncodeAddr(v6, host, port).Some?
    ensures DecodeAddr(v6, EncodeAddr(v6, host, port).value + tail) == Some(Addr(Canon(v6, host), port, tail))
  {
    U16RoundTrip(port);
    if COLON in host {
      Framed([ADDR_TYPE_IPV6], v6.parse(host).value, port, tail);
    } else if ParseV4(host).Some? {
      V4IsCanonical(host);
      Framed([ADDR_TYPE_IPV4], ParseV4(host).value, port, tail);
    } else {
      Framed([ADDR_TYPE_DOMAIN, |host| as Byte], host, port, tail);
    }
  }

  lemma Framed(prefix: Bytes, body: Bytes, port: Port, tail: Bytes)
    ensures var s := prefix + body + U16Bytes(port) + tail;
            && s[..|prefix|] == prefix
            && HostAndPort(s[|prefix|..], |body|) == Some(Addr(body, port, tail))
  {
    U16RoundTrip(port);
    var s := prefix + body + U16Bytes(port) + tail;
    var t := s[|prefix|..];
    assert t == body + U16Bytes(port) + tail;
    assert t[..|body|] == body && t[|body|..|body| + 2] == U16Bytes(port) && t[|body| + 2..] == tail;
  }

  /** Address encodings are prefix-free. */
  lemma AddrPrefixFree(v6: V6, h1: Bytes, p1: Port, h2: Bytes, p2: Port, tail: Bytes)
    requires Lawful(v6) && EncodeAddr(v6, h1, p1).Some? && EncodeAddr(v6, h2, p2).Some?
    requires EncodeAddr(v6, h2, p2).value == EncodeAddr(v6, h1, p1).value + tail
    ensures tail == [] && p1 == p2 && Canon(v6, h1) == Canon(v6, h2)
  {
    AddrRoundTrip(v6, h1, p1, tail);
    AddrRoundTrip(v6, h2, p2, []);
    assert EncodeAddr(v6, h2, p2).value + [] == EncodeAddr(v6, h2, p2).value;
  }

  /** A domain frame whose text is really an IP address, or contains a colon. */
  predicate Disguised(s: Bytes) {
    |s| >= 2 && s[0] == ADDR_TYPE_DOMAIN && |s| >= 2 + s[1] as nat
        && (COLON in s[2..2 + s[1] as nat] || ParseV4(s[2..2 + s[1] as nat]).Some?)
  }

  /** Encoding what was decoded gives back the consumed bytes if and only if the frame was not a disguised IP address.
      */
  lemma ReencodeIff(v6: V6, s: Bytes)
    requires Lawful(v6) && DecodeAddr(v6, s).Some?
    ensures var a := DecodeAddr(v6, s).value;
            && |a.rest| <= |s|
            && (EncodeAddr(v6, a.host, a.port) == Some(s[..|s| - |a.rest|]) <==> !Disguised(s))
  {
    if s[0] == ADDR_TYPE_DOMAIN {
      DomainReencodesIff(v6, s);
    } else {
      IpReencodes(v6, s);
    }
  }

  lemma IpReencodes(v6: V6, s: Bytes)
    requires Lawful(v6) && DecodeAddr(v6, s).Some? && s[0] != ADDR_TYPE_DOMAIN
    ensures var a := DecodeAddr(v6, s).value;
            |a.rest| <= |s| && EncodeAddr(v6, a.host, a.port) == Some(s[..|s| - |a.rest|])
  {
    if s[0] == ADDR_TYPE_IPV4 {
      var ip := s[1..5];
      assert s[1..][..4] == ip;
      V4RoundTrip(ip);
      V4HasNoColon(PrintV4(ip));
      Consumed(s, 1, 4);
      assert s[..1] == [ADDR_TYPE_IPV4];
    } else {
      var ip := s[1..17];
      assert s[1..][..16] == ip;
      assert v6.parse(v6.show(ip)) == Some(ip) && COLON in v6.show(ip);
      Consumed(s, 1, 16);
      assert s[..1] == [ADDR_TYPE_IPV6];
    }
  }

  lemma DomainReencodesIff(v6: V6, s: Bytes)
    requires DecodeAddr(v6, s).Some? && s[0] == ADDR_TYPE_DOMAIN
    ensures var a := DecodeAddr(v6, s).value;
            && |a.rest| <= |s|
            && (EncodeAddr(v6, a.host, a.port) == Some(s[..|s| - |a.rest|]) <==> !Disguised(s))
  {
    hide ParseV4;
    var a, n := DecodeAddr(v6, s).value, s[1] as nat;
    Consumed(s, 2, n);
    assert a.host == s[2..2 + n];
    assert s[..2] == [ADDR_TYPE_DOMAIN, s[1]];
    if Disguised(s) && EncodeAddr(v6, a.host, a.port).Some? {
      assert EncodeAddr(v6, a.host, a.port).value[0] != s[0];
      assert s[..|s| - |a.rest|][0] == s[0];
    }
  }

  lemma Consumed(s: Bytes, k: nat, n: nat)
    requires |s| >= k + n + 2
    ensures var a := HostAndPort(s[k..], n).value;
            && a.host == s[k..k + n] && |a.rest| == |s| - (k + n + 2)
            && s[..k + n + 2] == s[..k] + a.host + U16Bytes(a.port)
  {}

  /** The underlay writer emits the trojanc bytes whenever those exist; beyond that it accepts exactly the empty
      host and colon-bearing text of at most 255 bytes that is not an IPv6 address, as domains. */
  lemma UnderlayAgrees(v6: V6, host: Bytes, port: Port)
    requires Lawful(v6)
    ensures EncodeAddr(v6, host, port).Some? ==> EncodeUnderlay(v6, host, port) == EncodeAddr(v6, host, port)
    ensures EncodeAddr(v6, host, port).None? && EncodeUnderlay(v6, host, port).Some? <==>
            host == [] || (COLON in host && v6.parse(host).None? && |host| <= 255)
  {
    if ParseV4(host).Some? {
      V4HasNoColon(host);
    }
  }

  /** A header is read back with its network; the reader also understands the two forms without a host. */
  lemma HeaderRoundTrip(v6: V6, network: Byte, host: Bytes, port: Port, tail: Bytes)
    requires Lawful(v6) && EncodeHeader(v6, network, host, port).Some?
    ensures DecodeHeader(v6, EncodeHeader(v6, network, host, port).value + tail) ==
            Some((network, if host == [] then Addr([], 0, tail) else Addr(Canon(v6, host), port, tail)))
  {
    hide EncodeAddr, DecodeAddr, Canon, Lawful;
    if host == [] {
      assert ([network, ADDR_TYPE_NONE] + tail)[2..] == tail;
    } else {
      var a := EncodeAddr(v6, host, port).value;
      AddrRoundTrip(v6, host, port, tail);
      EncodedPrefix(v6, host, port);
      var s := [network] + a + tail;
      assert s[1..] == a + tail;
      assert s[0] == network && s[1] == a[0] && s[2] == a[1];
    }
  }

  lemma EncodedPrefix(v6: V6, host: Bytes, port: Port)
    requires EncodeAddr(v6, host, port).Some?
    ensures var a := EncodeAddr(v6, host, port).value;
            |a| >= 3 && a[0] != ADDR_TYPE_NONE && (a[0] == ADDR_TYPE_DOMAIN ==> a[1] != 0)
  {
  }

  // ---------------------------------------------------------------- builders

  /** A `Vec<u8>`. */
  class ByteVec {
    var bytes: Bytes

    constructor ()
      ensures bytes == []
    {
      bytes := [];
    }

    method Extend(more: Bytes)
      modifies this
      ensures bytes == old(bytes) + more
    {
      bytes := bytes + more;
    }
  }

  datatype AddrType = TypeV4 | TypeV6 | TypeDomain

  /** `AddrType::from_host`. */
  function FromHost(host: Bytes): AddrType {
    if COLON in host then TypeV6 else if ParseV4(host).Some? then TypeV4 else TypeDomain
  }

  function ToWireByte(t: AddrType): Byte {
    match t case TypeV4 => ADDR_TYPE_IPV4 case TypeV6 => ADDR_TYPE_IPV6 case TypeDomain => ADDR_TYPE_DOMAIN
  }

  /** `host_bytes` is the 255-byte array; a zero `hostLen` marks an invalid host. */
  datatype CachedAddr = CachedAddr(addrType: AddrType, hostBytes: Bytes, hostLen: Byte, port: Port)

  predicate CachedOk(c: CachedAddr) {
    |c.hostBytes| == 255
  }

  /** What a cached address stands for. */
  function Cached(c: CachedAddr): Option<Bytes>
    requires CachedOk(c)
  {
    match c.addrType
    case TypeV4 => if c.hostLen == 4 then Some([ADDR_TYPE_IPV4] + c.hostBytes[..4] + U16Bytes(c.port)) else None
    case TypeV6 => if c.hostLen == 16 then Some([ADDR_TYPE_IPV6] + c.hostBytes[..16] + U16Bytes(c.port)) else None
    case TypeDomain =>
      if c.hostLen > 0 then Some([ADDR_TYPE_DOMAIN, c.hostLen] + c.hostBytes[..c.hostLen as nat] + U16Bytes(c.port))
          else None
  }

  /** `[0u8; 255]` with `src` copied to its front. */
  method CopyIntoArray(src: Bytes) returns (out: Bytes)
    requires |src| <= 255
    ensures |out| == 255 && out[..|src|] == src
  {
    var a := new Byte[255](_ => 0);
    for i := 0 to |src|
      invariant a[..i] == src[..i]
    {
      a[i] := src[i];
    }
    out := a[..];
  }

  /** `CachedAddr::from_host_port`: never fails; invalid hosts get length zero. */
  method FromHostPort(v6: V6, host: Bytes, port: Port) returns (c: CachedAddr)
    requires Lawful(v6)
    ensures CachedOk(c) && Cached(c) == EncodeAddr(v6, host, port)
  {
    var t := FromHost(host);
    var bytes: Bytes := [];
    var len: Byte := 0;
    match t {
      case TypeV4 =>
        match ParseV4(host) { case Some(ip) => bytes, len := ip, 4; case None => }
      case TypeV6 =>
        match v6.parse(host) { case Some(ip) => bytes, len := ip, 16; case None => }
      case TypeDomain =>
        if 0 < |host| <= 255 { bytes, len := host, |host| as Byte; }
    }
    var hostBytes := CopyIntoArray(bytes);
    c := CachedAddr(t, hostBytes, len, port);
  }

  /** `build_trojanc_addr_cached`: appends to `buf`, or fails and leaves it alone. */
  method BuildTrojancAddrCached(buf: ByteVec, c: CachedAddr) returns (ok: bool)
    requires CachedOk(c)
    modifies buf
    ensures ok == Cached(c).Some?
    ensures buf.bytes == old(buf.bytes) + if ok then Cached(c).value else []
  {
    match c.addrType {
      case TypeV4 => ok := c.hostLen == 4;
      case TypeV6 => ok := c.hostLen == 16;
      case TypeDomain => ok := c.hostLen > 0;
    }
    if !ok {
      return;
    }
    buf.Extend([ToWireByte(c.addrType)]);
    match c.addrType {
      case TypeV4 => buf.Extend(c.hostBytes[..4]);
      case TypeV6 => buf.Extend(c.hostBytes[..16]);
      case TypeDomain =>
        buf.Extend([c.hostLen]);
        buf.Extend(c.hostBytes[..c.hostLen as nat]);
    }
    buf.Extend(U16Bytes(c.port));
    Appended(old(buf.bytes), c);
  }

  lemma Appended(before: Bytes, c: CachedAddr)
    requires CachedOk(c)
    ensures c.addrType.TypeV4? && c.hostLen == 4 ==>
              before + [ADDR_TYPE_IPV4] + c.hostBytes[..4] + U16Bytes(c.port) == before + Cached(c).value
    ensures c.addrType.TypeV6? && c.hostLen == 16 ==>
              before + [ADDR_TYPE_IPV6] + c.hostBytes[..16] + U16Bytes(c.port) == before + Cached(c).value
    ensures c.addrType.TypeDomain? && c.hostLen > 0 ==>
              before + [ADDR_TYPE_DOMAIN] + [c.hostLen] + c.hostBytes[..c.hostLen as nat] + U16Bytes(c.port)
                  == before + Cached(c).value
  {}

  /** `build_trojanc_addr`. */
  method BuildTrojancAddr(v6: V6, host: Bytes, port: Port) returns (r: Option<Bytes>)
    requires Lawful(v6)
    ensures r == EncodeAddr(v6, host, port)
  {
    var c := FromHostPort(v6, host, port);
    var buf := new ByteVec();
    var ok := BuildTrojancAddrCached(buf, c);
    if !ok {
      assert EncodeAddr(v6, host, port) == None;
      return None;
    }
    assert buf.bytes == Cached(c).value;
    r := Some(buf.bytes);
    assert r == Cached(c);
    assert Cached(c) == EncodeAddr(v6, host, port);
    assert r == EncodeAddr(v6, host, port);
  }

  /** `build_proxy_header`, which classifies and encodes the host on its own. */
  method BuildProxyHeader(v6: V6, network: Byte, host: Bytes, port: Port) returns (r: Option<Bytes>)
    requires Lawful(v6)
    ensures r == EncodeHeader(v6, network, host, port)
  {
    var t := if |host| == 0 then ADDR_TYPE_NONE
             else if COLON in host then ADDR_TYPE_IPV6
             else if ParseV4(host).Some? then ADDR_TYPE_IPV4
             else ADDR_TYPE_DOMAIN;
    var buf: Bytes := [network];
    buf := buf + [t];
    if t == ADDR_TYPE_IPV4 {
      buf := buf + ParseV4(host).value;
    } else if t == ADDR_TYPE_IPV6 {
      var ip := v6.parse(host);
      if ip.None? {
        assert EncodeHeader(v6, network, host, port) == None;
        return None;
      }
      buf := buf + ip.value;
    } else if t == ADDR_TYPE_DOMAIN {
      if |host| > 255 {
        assert EncodeHeader(v6, network, host, port) == None;
        return None;
      }
      buf := buf + [|host| as Byte];
      buf := buf + host;
    }
    if t != ADDR_TYPE_NONE {
      buf := buf + U16Bytes(port);
      assert buf == [network] + EncodeAddr(v6, host, port).value;
    } else {
      assert buf == [network, ADDR_TYPE_NONE];
    }
    r := Some(buf);
    assert EncodeHeader(v6, network, host, port) == Some(buf);
  }

  /** `write_underlay_metadata_async`; a failure happens before anything is written. */
  method WriteUnderlayMetadata(w: ByteVec, v6: V6, host: Bytes, port: Port) returns (ok: bool)
    modifies w
    ensures ok == EncodeUnderlay(v6, host, port).Some?
    ensures w.bytes == old(w.bytes) + if ok then EncodeUnderlay(v6, host, port).value else []
  {
    ghost var before := w.bytes;
    var v4 := ParseV4(host);
    if v4.Some? {
      w.Extend([ADDR_TYPE_IPV4]);
      w.Extend(v4.value);
      w.Extend(U16Bytes(port));
      assert w.bytes == before + ([ADDR_TYPE_IPV4] + v4.value + U16Bytes(port));
      return true;
    }
    var ip := v6.parse(host);
    if ip.Some? {
      w.Extend([ADDR_TYPE_IPV6]);
      w.Extend(ip.value);
      w.Extend(U16Bytes(port));
      assert w.bytes == before + ([ADDR_TYPE_IPV6] + ip.value + U16Bytes(port));
      return true;
    }
    if |host| > 255 {
      return false;
    }
    w.Extend([ADDR_TYPE_DOMAIN]);
    w.Extend([|host| as Byte]);
    w.Extend(host);
    w.Extend(U16Bytes(port));
    assert w.bytes == before + ([ADDR_TYPE_DOMAIN, |host| as Byte] + host + U16Bytes(port));
    ok := true;
  }

  // ---------------------------------------------------------------- readers

  /** A stream; a failed `read_exact` leaves it at its end. */
  class Reader {
    const data: Bytes
    var pos: nat

    ghost predicate Valid()
      reads this
    {
      pos <= |data|
    }

    function Rest(): Bytes
      requires Valid()
      reads this
    {
      data[pos..]
    }

    constructor (data: Bytes)
      ensures Valid() && Rest() == data
    {
      this.data := data;
      pos := 0;
    }

    method ReadExact(n: nat) returns (b: Option<Bytes>)
      requires Valid()
      modifies this
      ensures Valid()
      ensures n <= |old(Rest())| ==> b == Some(old(Rest())[..n]) && Rest() == old(Rest())[n..]
      ensures n > |old(Rest())| ==> b == None && Rest() == []
    {
      if pos + n <= |data| {
        b := Some(data[pos..pos + n]);
        assert data[pos..][..n] == data[pos..pos + n] && data[pos..][n..] == data[pos + n..];
        pos := pos + n;
      } else {
        b := None;
        pos := |data|;
      }
    }
  }

  /** Reading `n` bytes and then two more, `k` bytes into `s`. */
  lemma HostThenPort(s: Bytes, k: nat, n: nat)
    requires k <= |s|
    ensures HostAndPort(s[k..], n).Some? <==> |s| >= k + n + 2
    ensures |s| >= k + n + 2 ==>
              HostAndPort(s[k..], n) == Some(Addr(s[k..][..n], U16Of(s[k..][n..][..2]), s[k..][n..][2..]))
    ensures |s| >= k + n ==> |s[k..][n..]| == |s| - k - n
  {
    if |s| >= k + n + 2 {
      var t := s[k..];
      assert t[n..][..2] == t[n..n + 2] && t[n..][2..] == t[n + 2..];
    }
  }

  /** `read_trojanc_addr_async`. */
  method ReadTrojancAddr(r: Reader, v6: V6) returns (a: Option<(Bytes, Port)>)
    requires r.Valid()
    modifies r
    ensures r.Valid()
    ensures a.Some? == DecodeAddr(v6, old(r.Rest())).Some?
    ensures a.Some? ==> Addr(a.value.0, a.value.1, r.Rest()) == DecodeAddr(v6, old(r.Rest())).value
  {
    hide HostAndPort, U16Of;
    ghost var s := r.Rest();
    var t := r.ReadExact(1);
    if t.None? {
      return None;
    }
    var host: Bytes;
    if t.value[0] == ADDR_TYPE_IPV4 {
      HostThenPort(s, 1, 4);
      var ip := r.ReadExact(4);
      if ip.None? {
        return None;
      }
      host := PrintV4(ip.value);
    } else if t.value[0] == ADDR_TYPE_IPV6 {
      HostThenPort(s, 1, 16);
      var ip := r.ReadExact(16);
      if ip.None? {
        return None;
      }
      host := v6.show(ip.value);
    } else if t.value[0] == ADDR_TYPE_DOMAIN {
      var len := r.ReadExact(1);
      if len.None? || len.value[0] == 0 {
        return None;
      }
      assert r.Rest() == s[2..];
      HostThenPort(s, 2, len.value[0] as nat);
      var domain := r.ReadExact(len.value[0] as nat);
      if domain.None? {
        return None;
      }
      host := domain.value;
    } else {
      return None;
    }
    var port := r.ReadExact(2);
    if port.None? {
      return None;
    }
    a := Some((host, U16Of(port.value)));
  }

  /** `read_trojanc_addr_into_async`: the host is written into a reused buffer as soon as it is known, so a frame that
      ends before its port has already replaced the buffer. */
  method ReadTrojancAddrInto(r: Reader, v6: V6, host: ByteVec) returns (port: Option<Port>)
    requires r.Valid()
    modifies r, host
    ensures r.Valid()
    ensures port.Some? == DecodeAddr(v6, old(r.Rest())).Some?
    ensures port.Some? ==> Addr(host.bytes, port.value, r.Rest()) == DecodeAddr(v6, old(r.Rest())).value
  {
    hide HostAndPort, U16Of;
    ghost var s := r.Rest();
    var head := r.ReadExact(1);
    if head.None? {
      return None;
    }
    var addrType := head.value[0];
    if addrType == ADDR_TYPE_IPV4 {
      HostThenPort(s, 1, 4);
      var ip := r.ReadExact(4);
      if ip.None? {
        return None;
      }
      host.bytes := [];
      host.Extend(PrintV4(ip.value));
    } else if addrType == ADDR_TYPE_IPV6 {
      HostThenPort(s, 1, 16);
      var ip := r.ReadExact(16);
      if ip.None? {
        return None;
      }
      host.bytes := [];
      host.Extend(v6.show(ip.value));
    } else if addrType == ADDR_TYPE_DOMAIN {
      var len := r.ReadExact(1);
      if len.None? || len.value[0] == 0 {
        return None;
      }
      assert r.Rest() == s[2..];
      HostThenPort(s, 2, len.value[0] as nat);
      var domain := r.ReadExact(len.value[0] as nat);
      if domain.None? {
        return None;
      }
      host.bytes := [];
      host.Extend(domain.value);
    } else {
      return None;
    }
    var bytes := r.ReadExact(2);
    if bytes.None? {
      return None;
    }
    port := Some(U16Of(bytes.value));
  }

  /** `DecodeHeader` by address type, as offsets into `s`. */
  lemma HeaderCases(v6: V6, s: Bytes)
    ensures |s| < 2 ==> DecodeHeader(v6, s) == None
    ensures |s| >= 2 ==>
            var h, t := DecodeHeader(v6, s), s[1];
            && (t == ADDR_TYPE_NONE ==> h == Some((s[0], Addr([], 0, s[2..]))))
            && (t == ADDR_TYPE_IPV4 || t == ADDR_TYPE_IPV6 || t == ADDR_TYPE_DOMAIN ==>
                  var a := if t == ADDR_TYPE_IPV4 then
                      WithHost(HostAndPort(s[2..], 4), (ip: Bytes) requires |ip| == 4 => PrintV4(ip))
                           else if t == ADDR_TYPE_IPV6 then WithHost(HostAndPort(s[2..], 16), v6.show)
                           else if |s| < 3 then None else HostAndPort(s[3..], s[2] as nat);
                  h == if a.Some? then Some((s[0], a.value)) else None)
            && (t !in {ADDR_TYPE_NONE, ADDR_TYPE_IPV4, ADDR_TYPE_IPV6, ADDR_TYPE_DOMAIN} ==> h == None)
  {
    if |s| >= 2 {
      assert s[1..][1..] == s[2..];
    }
    if |s| >= 3 {
      assert s[1..][2..] == s[3..];
    }
  }

  /** `read_proxy_header_async`: network and type come in one read; a missing host has no port either. */
  method ReadProxyHeader(r: Reader, v6: V6) returns (h: Option<(Byte, Bytes, Port)>)
    requires r.Valid()
    modifies r
    ensures r.Valid()
    ensures h.Some? == DecodeHeader(v6, old(r.Rest())).Some?
    ensures h.Some? ==> (h.value.0, Addr(h.value.1, h.value.2, r.Rest())) == DecodeHeader(v6, old(r.Rest())).value
  {
    hide HostAndPort, U16Of, DecodeHeader;
    ghost var s := r.Rest();
    HeaderCases(v6, s);
    var buf := r.ReadExact(2);
    if buf.None? {
      return None;
    }
    var network, addrType := buf.value[0], buf.value[1];
    var host: Bytes := [];
    if addrType == ADDR_TYPE_IPV4 {
      HostThenPort(s, 2, 4);
      var ip := r.ReadExact(4);
      if ip.None? {
        return None;
      }
      host := PrintV4(ip.value);
    } else if addrType == ADDR_TYPE_IPV6 {
      HostThenPort(s, 2, 16);
      var ip := r.ReadExact(16);
      if ip.None? {
        return None;
      }
      host := v6.show(ip.value);
    } else if addrType == ADDR_TYPE_DOMAIN {
      var len := r.ReadExact(1);
      if len.None? {
        return None;
      }
      assert r.Rest() == s[3..];
      HostThenPort(s, 3, len.value[0] as nat);
      var domain := r.ReadExact(len.value[0] as nat);
      if domain.None? {
        return None;
      }
      host := domain.value;
    } else if addrType != ADDR_TYPE_NONE {
      return None;
    }
    var port: Port := 0;
    if addrType != ADDR_TYPE_NONE {
      var bytes := r.ReadExact(2);
      if bytes.None? {
        return None;
      }
      port := U16Of(bytes.value);
    }
    h := Some((network, host, port));
  }
}
