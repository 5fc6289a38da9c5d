/** common/src/protocol.rs: the underlay authentication message, [iv(32)][psk(32)][metadata]. */
module Underlay {
  import opened Common
  import opened HostText
  import opened Wire

  const IV_LEN: nat := 32
  const PSK_LEN: nat := 32

  datatype UnderlayAuth = UnderlayAuth(iv: Bytes, psk: Bytes, host: Bytes, port: Port)

  function EncodeAuth(v6: V6, a: UnderlayAuth): Option<Bytes> {
    if |a.psk| != PSK_LEN then None
    else match EncodeUnderlay(v6, a.host, a.port)
      case None => None
      case Some(m) => Some(a.iv + a.psk + m)
  }

  function DecodeAuth(v6: V6, s: Bytes): Option<(UnderlayAuth, Bytes)> {
    if |s| < IV_LEN + PSK_LEN then None
    else match DecodeAddr(v6, s[IV_LEN + PSK_LEN..])
      case None => None
      case Some(x) => Some((UnderlayAuth(s[..IV_LEN], s[IV_LEN..IV_LEN + PSK_LEN], x.host, x.port), x.rest))
  }

  /** `write_underlay_auth_async`: a bad key or host is noticed only after the parts before it went out. */
  method WriteUnderlayAuth(w: ByteVec, v6: V6, a: UnderlayAuth) returns (ok: bool)
    modifies w
    ensures ok == EncodeAuth(v6, a).Some?
    ensures ok ==> w.bytes == old(w.bytes) + EncodeAuth(v6, a).value
    ensures !ok ==> w.bytes == old(w.bytes) + a.iv + if |a.psk| == PSK_LEN then a.psk else []
  {
    hide EncodeUnderlay;
    ghost var before := w.bytes;
    w.Extend(a.iv);
    if |a.psk| != PSK_LEN {
      return false;
    }
    w.Extend(a.psk);
    ok := WriteUnderlayMetadata(w, v6, a.host, a.port);
    if ok {
      assert before + a.iv + a.psk + EncodeUnderlay(v6, a.host, a.port).value == before + EncodeAuth(v6, a).value;
    }
  }

  /** `read_underlay_metadata_async`: host and port come in one read. */
  method ReadUnderlayMetadata(r: Reader, v6: V6) returns (a: Option<(Bytes, Port)>)
    requires r.Valid()
    modifies r
    ensures r.Valid()
    ensures a.Some? == DecodeAddr(v6, old(r.Rest())).Some?
    ensures a.Some? ==> Addr(a.value.0, a.value.1, r.Rest()) == DecodeAddr(v6, old(r.Rest())).value
  {
    ghost var s := r.Rest();
    var t := r.ReadExact(1);
    if t.None? {
      return None;
    }
    if t.value[0] == ADDR_TYPE_IPV4 {
      var raw := r.ReadExact(6);
      if raw.None? {
        return None;
      }
      OneRead(s, 1, 4);
      a := Some((PrintV4(raw.value[..4]), U16Of(raw.value[4..6])));
    } else if t.value[0] == ADDR_TYPE_IPV6 {
      var raw := r.ReadExact(18);
      if raw.None? {
        return None;
      }
      OneRead(s, 1, 16);
      a := Some((v6.show(raw.value[..16]), U16Of(raw.value[16..18])));
    } else if t.value[0] == ADDR_TYPE_DOMAIN {
      var len := r.ReadExact(1);
      if len.None? || len.value[0] == 0 {
        return None;
      }
      var n := len.value[0] as nat;
      assert r.Rest() == s[2..];
      var domain := r.ReadExact(n + 2);
      if domain.None? {
        return None;
      }
      OneRead(s, 2, n);
      a := Some((domain.value[..n], U16Of(domain.value[n..n + 2])));
    } else if t.value[0] == ADDR_TYPE_MSG {
      var cmd := r.ReadExact(1);
      a := None;
    } else {
      a := None;
    }
  }

  lemma OneRead(s: Bytes, k: nat, n: nat)
    requires k + n + 2 <= |s|
    ensures var raw := s[k..][..n + 2];
            HostAndPort(s[k..], n) == Some(Addr(raw[..n], U16Of(raw[n..n + 2]), s[k..][n + 2..]))
  {
    var t := s[k..];
    assert t[..n + 2][..n] == t[..n] && t[..n + 2][n..n + 2] == t[n..n + 2];
  }

  /** `read_underlay_auth_async`. */
  method ReadUnderlayAuth(r: Reader, v6: V6) returns (a: Option<UnderlayAuth>)
    requires r.Valid()
    modifies r
    ensures r.Valid()
    ensures a.Some? == DecodeAuth(v6, old(r.Rest())).Some?
    ensures a.Some? ==> (a.value, r.Rest()) == DecodeAuth(v6, old(r.Rest())).value
  {
    hide DecodeAddr;
    ghost var s := r.Rest();
    var iv := r.ReadExact(IV_LEN);
    if iv.None? {
      return None;
    }
    var psk := r.ReadExact(PSK_LEN);
    if psk.None? {
      return None;
    }
    assert s[IV_LEN..][..PSK_LEN] == s[IV_LEN..IV_LEN + PSK_LEN];
    assert s[IV_LEN..][PSK_LEN..] == s[IV_LEN + PSK_LEN..];
    var m := ReadUnderlayMetadata(r, v6);
    if m.None? {
      return None;
    }
    a := Some(UnderlayAuth(iv.value, psk.value, m.value.0, m.value.1));
  }

  /** The server reads back the message the client wrote, with the host in canonical form, if and only if the host is
      not empty: the writer sends an empty domain, which the reader refuses. */
  lemma AuthRoundTripIff(v6: V6, a: UnderlayAuth, tail: Bytes)
    requires Lawful(v6) && |a.iv| == IV_LEN && EncodeAuth(v6, a).Some?
    ensures DecodeAuth(v6, EncodeAuth(v6, a).value + tail) == Some((a.(host := Canon(v6, a.host)), tail))
        <==> a.host != []
    ensures a.host == [] ==> DecodeAuth(v6, EncodeAuth(v6, a).value + tail) == None
  {
    hide EncodeUnderlay, DecodeAddr, Lawful, Canon;
    MetadataReadBack(v6, a.host, a.port, tail);
    Sections(a.iv, a.psk, EncodeUnderlay(v6, a.host, a.port).value, tail);
  }

  lemma Sections(iv: Bytes, psk: Bytes, m: Bytes, tail: Bytes)
    requires |iv| == IV_LEN && |psk| == PSK_LEN
    ensures var s := iv + psk + m + tail;
            s[..IV_LEN] == iv && s[IV_LEN..IV_LEN + PSK_LEN] == psk && s[IV_LEN + PSK_LEN..] == m + tail
  {}

  lemma MetadataReadBack(v6: V6, host: Bytes, port: Port, tail: Bytes)
    requires Lawful(v6) && EncodeUnderlay(v6, host, port).Some?
    ensures DecodeAddr(v6, EncodeUnderlay(v6, host, port).value + tail) ==
            if host == [] then None else Some(Addr(Canon(v6, host), port, tail))
  {
    U16RoundTrip(port);
    if ParseV4(host).Some? {
      V4HasNoColon(host);
      V4IsCanonical(host);
      Framed([ADDR_TYPE_IPV4], ParseV4(host).value, port, tail);
    } else if v6.parse(host).Some? {
      Framed([ADDR_TYPE_IPV6], v6.parse(host).value, port, tail);
    } else {
      Framed([ADDR_TYPE_DOMAIN, |host| as Byte], host, port, tail);
    }
  }
}
