/** UDP over a stream: the client's writers (client/src/client.rs), the server's relay loop (server/src/server.rs),
    the server's response writer (server/src/udp.rs) and the client's response reader (client/src/local.rs). */
module Datagrams {
  import opened Common
  import opened HostText
  import opened Wire

  datatype Datagram = Datagram(host: Bytes, port: Port, payload: Bytes)

  /** `udp_packet_len`: the two length bytes, or an error above 65535 bytes. */
  function UdpPacketLen(data: Bytes): Option<Bytes> {
    if |data| <= 65535 then Some(U16Bytes(|data|)) else None
  }

  /** [trojanc_addr][len(2)][payload]. */
  function EncodeDatagram(v6: V6, d: Datagram): Option<Bytes> {
    if UdpPacketLen(d.payload).None? then None
    else match EncodeAddr(v6, d.host, d.port)
      case None => None
      case Some(a) => Some(a + UdpPacketLen(d.payload).value + d.payload)
  }

  function DecodeDatagram(v6: V6, s: Bytes): (r: Option<(Datagram, Bytes)>)
    ensures r.Some? ==> |r.value.1| < |s|
  {
    match DecodeAddr(v6, s)
    case None => None
    case Some(a) =>
      if |a.rest| < 2 then None
      else
        var n := U16Of(a.rest[..2]);
        if |a.rest| < 2 + n then None
        else Some((Datagram(a.host, a.port, a.rest[2..2 + n]), a.rest[2 + n..]))
  }

  /** What a reading loop sees before the stream ends or stops making sense. */
  function DecodeAll(v6: V6, s: Bytes): seq<Datagram>
    decreases |s|
  {
    match DecodeDatagram(v6, s)
    case None => []
    case Some(r) => [r.0] + DecodeAll(v6, r.1)
  }

  predicate Encodable(v6: V6, ds: seq<Datagram>) {
    forall i | 0 <= i < |ds| :: EncodeDatagram(v6, ds[i]).Some?
  }

  function Frames(v6: V6, ds: seq<Datagram>): Bytes
    requires Encodable(v6, ds)
  {
    if ds == [] then [] else EncodeDatagram(v6, ds[0]).value + Frames(v6, ds[1..])
  }

  function CanonDatagram(v6: V6, d: Datagram): Datagram {
    d.(host := Canon(v6, d.host))
  }

  function CanonAll(v6: V6, ds: seq<Datagram>): (r: seq<Datagram>)
    ensures |r| == |ds| && forall i | 0 <= i < |ds| :: r[i] == CanonDatagram(v6, ds[i])
  {
    seq(|ds|, i requires 0 <= i < |ds| => CanonDatagram(v6, ds[i]))
  }

  /** The stream header carries network 3 and the first datagram's address. */
  function EncodeStream(v6: V6, ds: seq<Datagram>): Option<Bytes>
    requires ds != [] && Encodable(v6, ds)
  {
    match EncodeHeader(v6, NETWORK_UDP, ds[0].host, ds[0].port)
    case None => None
    case Some(h) => Some(h + Frames(v6, ds))
  }

  // ---------------------------------------------------------------- laws of the frames

  lemma DatagramRoundTrip(v6: V6, d: Datagram, tail: Bytes)
    requires Lawful(v6) && EncodeDatagram(v6, d).Some?
    ensures DecodeDatagram(v6, EncodeDatagram(v6, d).value + tail) == Some((CanonDatagram(v6, d), tail))
  {
    hide EncodeAddr, DecodeAddr, Canon, Lawful, U16Bytes, U16Of;
    var a := EncodeAddr(v6, d.host, d.port).value;
    var n := UdpPacketLen(d.payload).value;
    var rest := n + d.payload + tail;
    AddrRoundTrip(v6, d.host, d.port, rest);
    Lengthed(d.payload, tail);
    assert a + n + d.payload + tail == a + rest;
  }

  lemma Lengthed(payload: Bytes, tail: Bytes)
    requires |payload| <= 65535
    ensures var rest := U16Bytes(|payload|) + payload + tail;
            && |rest| >= 2 + |payload| && U16Of(rest[..2]) == |payload|
            && rest[2..2 + |payload|] == payload && rest[2 + |payload|..] == tail
  {}

  /** The frames of any list are read back as that list, whatever follows them. */
  lemma {:induction false} FramesRoundTrip(v6: V6, ds: seq<Datagram>, tail: Bytes)
    requires Lawful(v6) && Encodable(v6, ds)
    ensures DecodeAll(v6, Frames(v6, ds) + tail) == CanonAll(v6, ds) + DecodeAll(v6, tail)
  {
    hide DecodeDatagram, EncodeDatagram, Lawful, CanonDatagram;
    if ds == [] {
      assert [] + tail == tail && CanonAll(v6, ds) == [];
    } else {
      var f := EncodeDatagram(v6, ds[0]).value;
      DatagramRoundTrip(v6, ds[0], Frames(v6, ds[1..]) + tail);
      FramesRoundTrip(v6, ds[1..], tail);
      assert f + Frames(v6, ds[1..]) + tail == f + (Frames(v6, ds[1..]) + tail);
      assert CanonAll(v6, ds) == [CanonDatagram(v6, ds[0])] + CanonAll(v6, ds[1..]);
    }
  }

  /** The whole stream: header, then the frames. */
  lemma StreamRoundTrip(v6: V6, ds: seq<Datagram>)
    requires Lawful(v6) && ds != [] && Encodable(v6, ds)
    ensures EncodeStream(v6, ds).Some?
    ensures var h := DecodeHeader(v6, EncodeStream(v6, ds).value);
            && h.Some? && h.value.0 == NETWORK_UDP
            && h.value.1.host == Canon(v6, ds[0].host) && h.value.1.port == ds[0].port
            && DecodeAll(v6, h.value.1.rest) == CanonAll(v6, ds)
  {
    assert EncodeDatagram(v6, ds[0]).Some?;
    assert EncodeAddr(v6, ds[0].host, ds[0].port).Some? && ds[0].host != [];
    HeaderRoundTrip(v6, NETWORK_UDP, ds[0].host, ds[0].port, Frames(v6, ds));
    FramesRoundTrip(v6, ds, []);
    assert DecodeAll(v6, []) == [];
    assert Frames(v6, ds) + [] == Frames(v6, ds);
  }

  /** More input never changes an address that was already complete. */
  lemma DecodeAddrExtends(v6: V6, s: Bytes, t: Bytes)
    requires Lawful(v6) && DecodeAddr(v6, s).Some?
    ensures var a := DecodeAddr(v6, s).value; DecodeAddr(v6, s + t) == Some(a.(rest := a.rest + t))
  {
    if s[0] == ADDR_TYPE_IPV4 {
      HostExtends(s, 1, 4, t);
    } else if s[0] == ADDR_TYPE_IPV6 {
      HostExtends(s, 1, 16, t);
    } else {
      HostExtends(s, 2, s[1] as nat, t);
    }
  }

  lemma HostExtends(s: Bytes, k: nat, n: nat, t: Bytes)
    requires k + n + 2 <= |s|
    ensures var a := HostAndPort(s[k..], n).value;
            HostAndPort((s + t)[k..], n) == Some(a.(rest := a.rest + t))
  {
    var x, y := s[k..], (s + t)[k..];
    assert y == x + t;
    assert y[..n] == x[..n] && y[n..n + 2] == x[n..n + 2] && y[n + 2..] == x[n + 2..] + t;
  }

  lemma DecodeDatagramExtends(v6: V6, s: Bytes, t: Bytes)
    requires Lawful(v6) && DecodeDatagram(v6, s).Some?
    ensures var r := DecodeDatagram(v6, s).value; DecodeDatagram(v6, s + t) == Some((r.0, r.1 + t))
  {
    DecodeAddrExtends(v6, s, t);
    hide DecodeAddr, Lawful;
    var rest := DecodeAddr(v6, s).value.rest;
    var n := U16Of(rest[..2]);
    assert (rest + t)[..2] == rest[..2];
    assert (rest + t)[2..2 + n] == rest[2..2 + n] && (rest + t)[2 + n..] == rest[2 + n..] + t;
  }

  /** Truncating any input loses datagrams only from the end. */
  lemma {:induction false} TruncationKeepsPrefix(v6: V6, s: Bytes, t: Bytes)
    requires Lawful(v6)
    ensures DecodeAll(v6, s) <= DecodeAll(v6, s + t)
    decreases |s|
  {
    hide DecodeDatagram, Lawful;
    if DecodeDatagram(v6, s).Some? {
      DecodeDatagramExtends(v6, s, t);
      TruncationKeepsPrefix(v6, DecodeDatagram(v6, s).value.1, t);
    }
  }

  /** No part of a frame reads as a datagram. */
  lemma PartIsNoDatagram(v6: V6, d: Datagram, part: Bytes, tail: Bytes)
    requires Lawful(v6) && EncodeDatagram(v6, d) == Some(part + tail) && tail != []
    ensures DecodeDatagram(v6, part).None?
  {
    hide EncodeDatagram, DecodeDatagram, Lawful, CanonDatagram;
    DatagramRoundTrip(v6, d, []);
    assert part + tail + [] == part + tail;
    if DecodeDatagram(v6, part).Some? {
      DecodeDatagramExtends(v6, part, tail);
      assert false;
    }
  }

  /** A stream cut inside a frame yields exactly the datagrams before it. */
  lemma CutInsideAFrame(v6: V6, ds: seq<Datagram>, next: Datagram, cut: nat)
    requires Lawful(v6) && Encodable(v6, ds) && EncodeDatagram(v6, next).Some?
    requires cut < |EncodeDatagram(v6, next).value|
    ensures DecodeAll(v6, Frames(v6, ds) + EncodeDatagram(v6, next).value[..cut]) == CanonAll(v6, ds)
  {
    hide EncodeDatagram, DecodeDatagram, Lawful, Encodable, CanonDatagram, Frames;
    var f := EncodeDatagram(v6, next).value;
    assert f == f[..cut] + f[cut..];
    PartIsNoDatagram(v6, next, f[..cut], f[cut..]);
    FramesRoundTrip(v6, ds, f[..cut]);
  }

  // ---------------------------------------------------------------- the client's writers

  lemma OneFrame(v6: V6, host: Bytes, port: Port, first: Bytes)
    ensures var d, a := Datagram(host, port, first), EncodeAddr(v6, host, port);
            var h := EncodeHeader(v6, NETWORK_UDP, host, port);
            && EncodeDatagram(v6, d).Some? == (|first| <= 65535 && h.Some? && a.Some?)
            && (EncodeDatagram(v6, d).Some? ==>
                  EncodeStream(v6, [d]) == Some(h.value + (a.value + UdpPacketLen(first).value + first)))
  {
    hide EncodeAddr;
    var d := Datagram(host, port, first);
    assert [d][1..] == [];
    if EncodeDatagram(v6, d).Some? {
      assert Frames(v6, [d]) == EncodeDatagram(v6, d).value;
    }
  }

  /** `open_udp_stream`: everything goes out in one write, or nothing does. */
  method OpenUdpStream(v6: V6, host: Bytes, port: Port, first: Bytes, send: ByteVec) returns (ok: bool)
    requires Lawful(v6)
    modifies send
    ensures ok == EncodeDatagram(v6, Datagram(host, port, first)).Some?
    ensures ok ==> send.bytes == old(send.bytes) + EncodeStream(v6, [Datagram(host, port, first)]).value
    ensures !ok ==> send.bytes == old(send.bytes)
  {
    OneFrame(v6, host, port, first);
    hide EncodeAddr, EncodeHeader, EncodeDatagram, EncodeStream, Lawful;
    var len := UdpPacketLen(first);
    if len.None? {
      return false;
    }
    var header := BuildProxyHeader(v6, NETWORK_UDP, host, port);
    if header.None? {
      return false;
    }
    var addr := BuildTrojancAddr(v6, host, port);
    if addr.None? {
      return false;
    }
    var buf := new ByteVec();
    buf.Extend(header.value);
    buf.Extend(addr.value);
    buf.Extend(len.value);
    buf.Extend(first);
    assert buf.bytes == header.value + (addr.value + len.value + first);
    send.Extend(buf.bytes);
    ok := true;
  }

  /** `send_udp_datagram`: an oversized payload is refused before the scratch buffer is touched. */
  method SendUdpDatagram(send: ByteVec, c: CachedAddr, data: Bytes, addrBuf: ByteVec) returns (ok: bool)
    requires CachedOk(c) && send != addrBuf
    modifies send, addrBuf
    ensures ok == (|data| <= 65535 && Cached(c).Some?)
    ensures ok ==> send.bytes == old(send.bytes) + (Cached(c).value + U16Bytes(|data|) + data)
    ensures !ok ==> send.bytes == old(send.bytes)
    ensures |data| > 65535 ==> addrBuf.bytes == old(addrBuf.bytes)
  {
    var len := UdpPacketLen(data);
    if len.None? {
      return false;
    }
    addrBuf.bytes := [];
    ok := BuildTrojancAddrCached(addrBuf, c);
    if !ok {
      return false;
    }
    assert addrBuf.bytes == Cached(c).value;
    addrBuf.Extend(len.value);
    addrBuf.Extend(data);
    send.Extend(addrBuf.bytes);
  }

  /** A whole session: the first datagram opens the stream, the others follow with one scratch buffer. */
  method SendSession(v6: V6, ds: seq<Datagram>, send: ByteVec)
    requires Lawful(v6) && ds != [] && Encodable(v6, ds) && send.bytes == []
    modifies send
    ensures send.bytes == EncodeStream(v6, ds).value
  {
    var d := ds[0];
    hide EncodeAddr, EncodeHeader, Lawful;
    OneFrame(v6, d.host, d.port, d.payload);
    assert EncodeDatagram(v6, ds[0]).Some?;
    ghost var header := EncodeHeader(v6, NETWORK_UDP, d.host, d.port).value;
    assert [d][1..] == [];
    assert EncodeStream(v6, [d]).value == header + Frames(v6, [d]);
    assert ds[..1] == [d];
    var ok := OpenUdpStream(v6, d.host, d.port, d.payload, send);
    SendRest(v6, ds, send, header);
  }

  method SendRest(v6: V6, ds: seq<Datagram>, send: ByteVec, ghost header: Bytes)
    requires Lawful(v6) && ds != [] && Encodable(v6, ds) && Encodable(v6, ds[..1])
    requires send.bytes == header + Frames(v6, ds[..1])
    modifies send
    ensures send.bytes == header + Frames(v6, ds)
  {
    hide EncodeAddr, Lawful, Frames, Cached;
    var scratch := new ByteVec();
    for i := 1 to |ds|
      invariant Encodable(v6, ds[..i]) && send.bytes == header + Frames(v6, ds[..i])
    {
      assert EncodeDatagram(v6, ds[i]).Some?;
      var c := FromHostPort(v6, ds[i].host, ds[i].port);
      var ok := SendUdpDatagram(send, c, ds[i].payload, scratch);
      FramesSnoc(v6, ds[..i], ds[i]);
      assert ds[..i] + [ds[i]] == ds[..i + 1];
      assert header + Frames(v6, ds[..i]) + EncodeDatagram(v6, ds[i]).value == header + Frames(v6, ds[..i + 1]);
    }
    assert ds[..|ds|] == ds;
  }

  lemma FramesOfNone(v6: V6)
    ensures Frames(v6, []) == []
  {}

  lemma {:induction false} FramesSnoc(v6: V6, ds: seq<Datagram>, d: Datagram)
    requires Encodable(v6, ds) && EncodeDatagram(v6, d).Some?
    ensures Encodable(v6, ds + [d]) && Frames(v6, ds + [d]) == Frames(v6, ds) + EncodeDatagram(v6, d).value
  {
    if ds != [] {
      FramesSnoc(v6, ds[1..], d);
      assert (ds + [d])[1..] == ds[1..] + [d];
    } else {
      assert (ds + [d])[1..] == [];
    }
  }

  // ---------------------------------------------------------------- the server's relay

  /** The world outside while the i-th datagram is handled: the resolver's answer, the socket's verdict, and whether the
      task is aborted before the datagram goes out, as it is when the response task ends. `dials`: the socket opens. */
  datatype World = World(
    answer: (nat, Bytes, Port) -> Option<nat>,
    dials: bool,
    sends: nat -> bool,
    aborts: nat -> bool)

  /** The i-th datagram does not go out. The first one precedes the tasks, so nothing aborts it. */
  predicate Lost(w: World, i: nat, target: Option<nat>) { target.None? || !w.sends(i) || (i > 0 && w.aborts(i)) }

  datatype Sent = Sent(datagram: Datagram, target: nat)

  function KeyOf(d: Datagram): (Bytes, Port) { (d.host, d.port) }

  /** Datagrams from the i-th on, with the session's own table of resolved targets. */
  function Route(w: World, ds: seq<Datagram>, i: nat, resolved: map<(Bytes, Port), nat>): seq<Sent>
    requires i <= |ds|
    decreases |ds| - i
  {
    if i == |ds| then []
    else
      var key := KeyOf(ds[i]);
      var target := if key in resolved then Some(resolved[key]) else w.answer(i, ds[i].host, ds[i].port);
      if Lost(w, i, target) then []
      else [Sent(ds[i], target.value)] + Route(w, ds, i + 1, resolved[key := target.value])
  }

  /** The relay of a datagram list; the first datagram is resolved on its own and may be blocked. */
  function Relay(block443: bool, w: World, ds: seq<Datagram>): seq<Sent> {
    if ds == [] || (block443 && ds[0].port == 443) then []
    else
      var target := w.answer(0, ds[0].host, ds[0].port);
      if Lost(w, 0, target) || !w.dials then [] else [Sent(ds[0], target.value)] + Route(w, ds, 1, map[])
  }

  /** `handle_stream` for network 3. */
  function Serve(v6: V6, block443: bool, w: World, s: Bytes): seq<Sent> {
    match DecodeHeader(v6, s)
    case None => []
    case Some(h) => if h.0 != NETWORK_UDP then [] else Relay(block443, w, DecodeAll(v6, h.1.rest))
  }

  /** `payload.resize(len)` and `read_exact` into it. */
  method ReadPayload(r: Reader, payload: ByteVec) returns (ok: bool)
    requires r.Valid()
    modifies r, payload
    ensures r.Valid()
    ensures var s := old(r.Rest());
            && ok == (|s| >= 2 && |s| >= 2 + U16Of(s[..2]))
            && (ok ==> payload.bytes == s[2..2 + U16Of(s[..2])] && r.Rest() == s[2 + U16Of(s[..2])..])
  {
    ghost var s := r.Rest();
    var len := r.ReadExact(2);
    if len.None? {
      return false;
    }
    var data := r.ReadExact(U16Of(len.value));
    if data.None? {
      return false;
    }
    assert s[2..][..U16Of(s[..2])] == s[2..2 + U16Of(s[..2])];
    payload.bytes := data.value;
    ok := true;
  }

  /** One [trojanc_addr][len][payload] into the reused host and payload buffers. */
  method ReadDatagramInto(r: Reader, v6: V6, host: ByteVec, payload: ByteVec) returns (port: Option<Port>)
    requires r.Valid() && host != payload
    modifies r, host, payload
    ensures r.Valid()
    ensures port.Some? == DecodeDatagram(v6, old(r.Rest())).Some?
    ensures port.Some? ==>
              (Datagram(host.bytes, port.value, payload.bytes), r.Rest()) == DecodeDatagram(v6, old(r.Rest())).value
  {
    port := ReadTrojancAddrInto(r, v6, host);
    if port.None? {
      return;
    }
    var ok := ReadPayload(r, payload);
    if !ok {
      port := None;
    }
  }

  /** `handle_udp_relay`, stream to socket. */
  method HandleUdpRelay(r: Reader, v6: V6, block443: bool, w: World) returns (sent: seq<Sent>)
    requires r.Valid()
    modifies r
    ensures r.Valid() && sent == Relay(block443, w, DecodeAll(v6, old(r.Rest())))
  {
    hide Route, DecodeAddr, U16Of;
    ghost var ds := DecodeAll(v6, r.Rest());
    var first := ReadTrojancAddr(r, v6);
    if first.None? {
      return [];
    }
    var (host, port) := first.value;
    if block443 && port == 443 {
      return [];
    }
    var target := w.answer(0, host, port);
    if target.None? || !w.dials {
      return [];
    }
    var payload := new ByteVec();
    var ok := ReadPayload(r, payload);
    if !ok || !w.sends(0) {
      return [];
    }
    sent := [Sent(Datagram(host, port, payload.bytes), target.value)];
    assert ds == [sent[0].datagram] + DecodeAll(v6, r.Rest());
    var more := RelayRest(r, v6, w, payload, ds);
    sent := sent + more;
  }

  lemma RouteStep(w: World, ds: seq<Datagram>, i: nat, resolved: map<(Bytes, Port), nat>, sent: seq<Sent>)
    requires i <= |ds|
    ensures i == |ds| ==> sent + Route(w, ds, i, resolved) == sent
    ensures i < |ds| ==>
              var key := KeyOf(ds[i]);
              var target := if key in resolved then Some(resolved[key]) else w.answer(i, ds[i].host, ds[i].port);
              sent + Route(w, ds, i, resolved) ==
              if Lost(w, i, target) then sent
              else sent + [Sent(ds[i], target.value)] + Route(w, ds, i + 1, resolved[key := target.value])
  {}

  /** The datagrams from the i-th on are those that `rest` holds. */
  ghost predicate Ahead(v6: V6, ds: seq<Datagram>, i: nat, rest: Bytes)
    requires i <= |ds|
  {
    ds[i..] == DecodeAll(v6, rest)
  }

  lemma AheadStep(v6: V6, ds: seq<Datagram>, i: nat, rest: Bytes)
    requires i <= |ds| && Ahead(v6, ds, i, rest)
    ensures match DecodeDatagram(v6, rest)
            case None => i == |ds|
            case Some((d, left)) => i < |ds| && ds[i] == d && Ahead(v6, ds, i + 1, left)
  {
    hide DecodeDatagram;
    if DecodeDatagram(v6, rest).Some? {
      assert ds[i] == ds[i..][0] && ds[i + 1..] == ds[i..][1..];
    }
  }

  /** The loop over the datagrams after the first. */
  method RelayRest(r: Reader, v6: V6, w: World, payload: ByteVec, ghost ds: seq<Datagram>) returns (sent: seq<Sent>)
    requires r.Valid() && ds != [] && ds[1..] == DecodeAll(v6, r.Rest())
    modifies r, payload
    ensures r.Valid() && sent == Route(w, ds, 1, map[])
  {
    sent := [];
    var i := 1;
    var host := new ByteVec();
    var resolved: map<(Bytes, Port), nat> := map[];
    assert Ahead(v6, ds, 1, r.Rest());
    hide DecodeDatagram, DecodeAll, Route, Ahead;
    while true
      invariant r.Valid() && 1 <= i <= |ds| && Ahead(v6, ds, i, r.Rest())
      invariant sent + Route(w, ds, i, resolved) == Route(w, ds, 1, map[])
      decreases |ds| - i
    {
      RouteStep(w, ds, i, resolved, sent);
      AheadStep(v6, ds, i, r.Rest());
      var port := ReadDatagramInto(r, v6, host, payload);
      if port.None? {
        break;
      }
      var key := (host.bytes, port.value);
      var target := if key in resolved then Some(resolved[key]) else w.answer(i, host.bytes, port.value);
      if Lost(w, i, target) {
        break;
      }
      sent := sent + [Sent(Datagram(host.bytes, port.value, payload.bytes), target.value)];
      resolved := resolved[key := target.value];
      i := i + 1;
    }
  }

  // ---------------------------------------------------------------- laws of the relay

  /** The first datagram from `lo` on with this key. */
  function First(ds: seq<Datagram>, key: (Bytes, Port), lo: nat): nat
    requires lo <= |ds|
    decreases |ds| - lo
  {
    if lo == |ds| || KeyOf(ds[lo]) == key then lo else First(ds, key, lo + 1)
  }

  ghost predicate Answered(w: World, at: nat, s: Sent) {
    w.answer(at, s.datagram.host, s.datagram.port) == Some(s.target)
  }

  /** In order, without gaps; every target comes from the table or from the lookup made for the first datagram of its
      key; the relay stops only at a failed lookup, a failed send or an abort. */
  lemma {:induction false} RouteLaws(w: World, ds: seq<Datagram>, i: nat, resolved: map<(Bytes, Port), nat>)
    requires i <= |ds|
    ensures var out := Route(w, ds, i, resolved);
            && |out| <= |ds| - i
            && (forall j | 0 <= j < |out| :: out[j].datagram == ds[i + j])
            && (forall j | 0 <= j < |out| && KeyOf(ds[i + j]) in resolved ::
                out[j].target == resolved[KeyOf(ds[i + j])])
            && (forall j | 0 <= j < |out| && KeyOf(ds[i + j]) !in resolved ::
                Answered(w, First(ds, KeyOf(ds[i + j]), i), out[j]))
            && (i + |out| < |ds| ==>
                  var d, k := ds[i + |out|], i + |out|; !w.sends(k) || w.aborts(k) || w.answer(k, d.host, d.port).None?)
    decreases |ds| - i
  {
    if i < |ds| {
      var key := KeyOf(ds[i]);
      var target := if key in resolved then Some(resolved[key]) else w.answer(i, ds[i].host, ds[i].port);
      if !Lost(w, i, target) {
        RouteLaws(w, ds, i + 1, resolved[key := target.value]);
        var rest := Route(w, ds, i + 1, resolved[key := target.value]);
        var out := Route(w, ds, i, resolved);
        assert out == [Sent(ds[i], target.value)] + rest;
        forall j | 0 < j < |out|
          ensures out[j].datagram == ds[i + j]
          ensures KeyOf(ds[i + j]) in resolved ==> out[j].target == resolved[KeyOf(ds[i + j])]
          ensures KeyOf(ds[i + j]) !in resolved ==> Answered(w, First(ds, KeyOf(ds[i + j]), i), out[j])
        {
          assert out[j] == rest[j - 1] && ds[i + j] == ds[i + 1 + (j - 1)];
        }
      }
    }
  }

  /** What the relay does with a list of datagrams: in order and unchanged, each to an address the resolver gave for
      that very host and port; after the first datagram, one lookup per destination serves them all. */
  ghost predicate Delivers(block443: bool, w: World, all: seq<Datagram>, out: seq<Sent>)
    requires all != []
  {
    && |out| <= |all|
    && (forall j | 0 <= j < |out| :: out[j].datagram == all[j])
    && (forall j | 1 <= j < |out| :: Answered(w, First(all, KeyOf(all[j]), 1), out[j]))
    && (out != [] ==> Answered(w, 0, out[0]))
    && (out == [] <==>
          || (block443 && all[0].port == 443) || !w.dials
          || Lost(w, 0, w.answer(0, all[0].host, all[0].port)))
    && (0 < |out| < |all| ==>
          var k := |out|; !w.sends(k) || w.aborts(k) || w.answer(k, all[k].host, all[k].port).None?)
  }

  lemma RelayDelivers(block443: bool, w: World, all: seq<Datagram>)
    requires all != []
    ensures Delivers(block443, w, all, Relay(block443, w, all))
  {
    RouteLaws(w, all, 1, map[]);
    hide Route, First;
    var rest, out := Route(w, all, 1, map[]), Relay(block443, w, all);
    if out != [] {
      forall j | 1 <= j < |out| ensures out[j].datagram == all[j] && Answered(w, First(all, KeyOf(all[j]), 1), out[j]) {
        assert out[j] == rest[j - 1] && all[j] == all[1 + (j - 1)];
      }
    }
  }

  /** End to end: what the client writes for a session is what the server relays, with hosts in canonical form. */
  lemma SessionIsRelayed(v6: V6, ds: seq<Datagram>, block443: bool, w: World)
    requires Lawful(v6) && ds != [] && Encodable(v6, ds)
    ensures EncodeStream(v6, ds).Some?
    ensures Delivers(block443, w, CanonAll(v6, ds), Serve(v6, block443, w, EncodeStream(v6, ds).value))
  {
    StreamRoundTrip(v6, ds);
    hide EncodeStream, DecodeHeader, DecodeAll, Lawful, Encodable, CanonAll, Relay, Delivers;
    RelayDelivers(block443, w, CanonAll(v6, ds));
  }

  /** Every lookup and every send succeeds and nobody aborts the relay. */
  ghost predicate AllGoesWell(w: World, ds: seq<Datagram>) {
    w.dials && forall j | 0 <= j < |ds| :: !Lost(w, j, w.answer(j, ds[j].host, ds[j].port))
  }

  /** Then everything is sent, or nothing because of the block. */
  lemma AllIsSent(block443: bool, w: World, ds: seq<Datagram>)
    requires ds != [] && AllGoesWell(w, ds)
    ensures var out := Relay(block443, w, ds);
            && |out| == (if block443 && ds[0].port == 443 then 0 else |ds|)
            && forall j | 0 <= j < |out| :: out[j].datagram == ds[j]
  {
    RelayDelivers(block443, w, ds);
    hide Relay;
    assert !Lost(w, 0, w.answer(0, ds[0].host, ds[0].port));
    var k := |Relay(block443, w, ds)|;
    assert k < |ds| ==> !Lost(w, k, w.answer(k, ds[k].host, ds[k].port));
  }

  /** The block keeps port 443 from being reached if and only if it is the first destination, which ends the stream, or
      no destination at all: later datagrams to it pass. */
  lemma Block443Iff(w: World, ds: seq<Datagram>)
    requires ds != [] && AllGoesWell(w, ds)
    ensures (forall s | s in Relay(true, w, ds) :: s.datagram.port != 443)
            <==> ds[0].port == 443 || forall j | 0 <= j < |ds| :: ds[j].port != 443
  {
    AllIsSent(true, w, ds);
    hide Relay, AllGoesWell;
    var out := Relay(true, w, ds);
    if ds[0].port != 443 && exists j :: 0 <= j < |ds| && ds[j].port == 443 {
      var j :| 0 <= j < |ds| && ds[j].port == 443;
      assert out[j] in out && out[j].datagram.port == 443;
    }
  }

  /** The smallest such stream: two datagrams, of which only the second goes to port 443. */
  lemma Block443IsForTheFirstOnly(w: World, first: Datagram, second: Datagram)
    requires AllGoesWell(w, [first, second]) && first.port != 443 && second.port == 443
    ensures exists s :: s in Relay(true, w, [first, second]) && s.datagram == second
  {
    AllIsSent(true, w, [first, second]);
    assert Relay(true, w, [first, second])[1].datagram == second;
  }

  // ---------------------------------------------------------------- responses

  type Ip = ip: Bytes | |ip| == 4 || |ip| == 16 witness [0, 0, 0, 0]

  const MAPPED: Bytes := [0, 0, 0, 0, 0, 0, 0, 0, 0, 0, 0xFF, 0xFF]

  /** `IpAddr::to_canonical`: IPv4-mapped IPv6 addresses become IPv4. */
  function ToCanonical(ip: Ip): Ip {
    if |ip| == 16 && ip[..12] == MAPPED then ip[12..] else ip
  }

  function IpText(v6: V6, ip: Ip): Bytes {
    if |ip| == 4 then PrintV4(ip) else v6.show(ip)
  }

  /** `CachedAddr::from_socket_addr`: no text in between, yet the same encoding as that of the printed address. */
  method FromSocketAddr(v6: V6, ip: Ip, port: Port) returns (c: CachedAddr)
    requires Lawful(v6)
    ensures CachedOk(c) && Cached(c).Some? && Cached(c) == EncodeAddr(v6, IpText(v6, ip), port)
  {
    var hostBytes := CopyIntoArray(ip);
    c := CachedAddr(if |ip| == 4 then TypeV4 else TypeV6, hostBytes, |ip| as Byte, port);
    if |ip| == 4 {
      V4RoundTrip(ip);
      V4HasNoColon(PrintV4(ip));
    } else {
      assert v6.parse(v6.show(ip)) == Some(ip);
    }
  }

  datatype Response = Response(ip: Ip, port: Port, data: Bytes)

  function AsDatagram(v6: V6, x: Response): Datagram {
    Datagram(IpText(v6, ToCanonical(x.ip)), x.port, x.data)
  }

  function AsDatagrams(v6: V6, xs: seq<Response>): seq<Datagram> {
    if xs == [] then [] else [AsDatagram(v6, xs[0])] + AsDatagrams(v6, xs[1..])
  }

  /** The receive buffer holds 65535 bytes, so no response is longer. */
  predicate Received(xs: seq<Response>) {
    forall i | 0 <= i < |xs| :: |xs[i].data| <= 65535
  }

  lemma {:induction false} ResponsesEncodable(v6: V6, xs: seq<Response>)
    requires Lawful(v6) && Received(xs)
    ensures Encodable(v6, AsDatagrams(v6, xs)) && |AsDatagrams(v6, xs)| == |xs|
    ensures forall i | 0 <= i < |xs| :: AsDatagrams(v6, xs)[i] == AsDatagram(v6, xs[i])
  {
    hide EncodeDatagram, AsDatagram, Lawful;
    if xs != [] {
      ResponsesEncodable(v6, xs[1..]);
      ResponseEncodable(v6, xs[0]);
    }
  }

  lemma ResponseEncodable(v6: V6, x: Response)
    requires Lawful(v6) && |x.data| <= 65535
    ensures EncodeDatagram(v6, AsDatagram(v6, x)).Some? && Canon(v6, AsDatagram(v6, x).host) == AsDatagram(v6, x).host
  {
    var ip := ToCanonical(x.ip);
    if |ip| == 4 {
      V4RoundTrip(ip);
      V4HasNoColon(PrintV4(ip));
    } else {
      assert v6.parse(v6.show(ip)) == Some(ip);
    }
  }

  /** `relay_responses`: one reused frame buffer, one write per response. */
  method RelayResponses(v6: V6, xs: seq<Response>, writer: ByteVec)
    requires Lawful(v6) && Received(xs)
    modifies writer
    ensures Encodable(v6, AsDatagrams(v6, xs)) && writer.bytes == old(writer.bytes) + Frames(v6, AsDatagrams(v6, xs))
  {
    hide EncodeAddr, Lawful, Frames, Cached, IpText, ToCanonical, AsDatagrams;
    ResponsesEncodable(v6, xs);
    ghost var ds := AsDatagrams(v6, xs);
    assert ds[..0] == [] && Frames(v6, []) == [] by { FramesOfNone(v6); }
    ghost var before := writer.bytes;
    var frame := new ByteVec();
    for i := 0 to |xs|
      invariant Encodable(v6, ds[..i]) && writer.bytes == before + Frames(v6, ds[..i])
    {
      frame.bytes := [];
      ghost var d := ds[i];
      assert d == AsDatagram(v6, xs[i]) && EncodeDatagram(v6, d).Some?;
      var c := FromSocketAddr(v6, ToCanonical(xs[i].ip), xs[i].port);
      var ok := BuildTrojancAddrCached(frame, c);
      frame.Extend(U16Bytes(|xs[i].data| % 0x1_0000));
      frame.Extend(xs[i].data);
      assert frame.bytes == EncodeDatagram(v6, d).value;
      writer.Extend(frame.bytes);
      FramesSnoc(v6, ds[..i], d);
      assert ds[..i] + [d] == ds[..i + 1];
      assert before + Frames(v6, ds[..i]) + EncodeDatagram(v6, d).value == before + Frames(v6, ds[..i + 1]);
    }
    assert ds[..|xs|] == ds;
  }

  /** `read_one_udp_response`. */
  method ReadOneUdpResponse(r: Reader, v6: V6, buf: ByteVec) returns (a: Option<(Bytes, Port)>)
    requires r.Valid()
    modifies r, buf
    ensures r.Valid()
    ensures a.Some? == DecodeDatagram(v6, old(r.Rest())).Some?
    ensures a.Some? ==>
              (Datagram(a.value.0, a.value.1, buf.bytes), r.Rest()) == DecodeDatagram(v6, old(r.Rest())).value
  {
    a := ReadTrojancAddr(r, v6);
    if a.None? {
      return;
    }
    var ok := ReadPayload(r, buf);
    if !ok {
      a := None;
    }
  }

  /** The client reads back exactly what the sockets received, with canonical source addresses. */
  lemma ResponsesRoundTrip(v6: V6, xs: seq<Response>)
    requires Lawful(v6) && Received(xs)
    ensures Encodable(v6, AsDatagrams(v6, xs)) && DecodeAll(v6, Frames(v6, AsDatagrams(v6, xs))) == AsDatagrams(v6, xs)
  {
    var ds := AsDatagrams(v6, xs);
    ResponsesEncodable(v6, xs);
    FramesRoundTrip(v6, ds, []);
    forall i | 0 <= i < |ds| ensures CanonDatagram(v6, ds[i]) == ds[i] { ResponseEncodable(v6, xs[i]); }
    assert CanonAll(v6, ds) == ds;
    assert Frames(v6, ds) + [] == Frames(v6, ds);
    assert DecodeAll(v6, []) == [];
  }
}
