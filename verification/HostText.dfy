/** Host names as text: dotted-decimal IPv4 (parsed and printed concretely), IPv6 text (a parameter) and UTF-8. */
module HostText {
  import opened Common

  type Bytes = seq<Byte>

  const DOT: Byte := 46
  const COLON: Byte := 58
  const ZERO: Byte := 48

  predicate IsDigit(b: Byte) { 48 <= b <= 57 }

  function DigitValue(b: Byte): nat
    requires IsDigit(b)
  {
    b as nat - 48
  }

  function Digit(d: nat): Byte
    requires d < 10
  {
    (48 + d) as Byte
  }

  /** `u8::to_string`. */
  function PrintOctet(b: Byte): Bytes {
    var n := b as nat;
    if n < 10 then [Digit(n)]
    else if n < 100 then [Digit(n / 10), Digit(n % 10)]
    else [Digit(n / 100), Digit(n / 10 % 10), Digit(n % 10)]
  }

  /** One to three decimal digits without a leading zero, at most 255. */
  function ParseOctet(s: Bytes): Option<Byte> {
    if !(1 <= |s| <= 3) || (exists i :: 0 <= i < |s| && !IsDigit(s[i])) || (|s| > 1 && s[0] == ZERO) then None
    else
      var n := DecimalValue(s);
      if n <= 255 then Some(n as Byte) else None
  }

  function DecimalValue(s: Bytes): nat
    requires forall i | 0 <= i < |s| :: IsDigit(s[i])
  {
    if s == [] then 0 else 10 * DecimalValue(s[..|s| - 1]) + DigitValue(s[|s| - 1])
  }

  lemma ThreeDigits(s: Bytes)
    requires 1 <= |s| <= 3 && forall i | 0 <= i < |s| :: IsDigit(s[i])
    ensures |s| == 1 ==> DecimalValue(s) == DigitValue(s[0])
    ensures |s| == 2 ==> DecimalValue(s) == 10 * DigitValue(s[0]) + DigitValue(s[1])
    ensures |s| == 3 ==> DecimalValue(s) == 100 * DigitValue(s[0]) + 10 * DigitValue(s[1]) + DigitValue(s[2])
  {}

  /** Printing and parsing an octet are inverse to each other. */
  lemma OctetRoundTrip(b: Byte)
    ensures ParseOctet(PrintOctet(b)) == Some(b)
    ensures DOT !in PrintOctet(b) && COLON !in PrintOctet(b)
  {
    var s := PrintOctet(b);
    ThreeDigits(s);
    hide DecimalValue;
    assert DecimalValue(s) == b as nat;
  }

  lemma OctetIsCanonical(s: Bytes)
    requires ParseOctet(s).Some?
    ensures PrintOctet(ParseOctet(s).value) == s
  {
    ThreeDigits(s);
    hide DecimalValue;
    var n := ParseOctet(s).value as nat;
    if |s| == 2 {
      Tens(DigitValue(s[0]), DigitValue(s[1]));
    } else if |s| == 3 {
      Hundreds(DigitValue(s[0]), DigitValue(s[1]), DigitValue(s[2]));
    }
    assert PrintOctet(n as Byte) == s;
  }

  lemma Tens(d: nat, units: nat)
    requires units < 10
    ensures (10 * d + units) / 10 == d && (10 * d + units) % 10 == units
  {}

  lemma Hundreds(d: nat, tens: nat, units: nat)
    requires tens < 10 && units < 10
    ensures var n := 100 * d + 10 * tens + units;
            n / 100 == d && n / 10 % 10 == tens && n % 10 == units
  {
    Tens(10 * d + tens, units);
    Tens(d, tens);
  }

  /** The maximal runs between dots; always at least one. */
  function SplitDots(s: Bytes): (parts: seq<Bytes>)
    ensures |parts| > 0
    ensures forall i | 0 <= i < |parts| :: DOT !in parts[i]
  {
    if s == [] then [[]]
    else
      var rest := SplitDots(s[1..]);
      if s[0] == DOT then [[]] + rest else [[s[0]] + rest[0]] + rest[1..]
  }

  function JoinDots(parts: seq<Bytes>): Bytes
    requires |parts| > 0
  {
    if |parts| == 1 then parts[0] else parts[0] + [DOT] + JoinDots(parts[1..])
  }

  lemma {:induction false} JoinSplit(s: Bytes)
    ensures JoinDots(SplitDots(s)) == s
  {
    if s != [] {
      JoinSplit(s[1..]);
      var rest, all := SplitDots(s[1..]), SplitDots(s);
      assert all == if s[0] == DOT then [[]] + rest else [[s[0]] + rest[0]] + rest[1..];
      hide SplitDots;
      if s[0] == DOT {
        assert all[1..] == rest;
        assert [] + [DOT] + s[1..] == s;
      } else if |rest| == 1 {
        assert [s[0]] + s[1..] == s;
      } else {
        assert all[1..] == rest[1..];
        assert rest[0] + [DOT] + JoinDots(rest[1..]) == s[1..];
        assert [s[0]] + rest[0] + [DOT] + JoinDots(rest[1..]) == [s[0]] + (rest[0] + [DOT] + JoinDots(rest[1..]));
        assert [s[0]] + s[1..] == s;
      }
    }
  }

  lemma {:induction false} SplitPlain(s: Bytes)
    requires DOT !in s
    ensures SplitDots(s) == [s]
  {
    if s != [] {
      assert s[0] in s;
      SplitPlain(s[1..]);
      assert [s[0]] + s[1..] == s;
    }
  }

  lemma {:induction false} SplitAfter(a: Bytes, b: Bytes)
    requires DOT !in a
    ensures SplitDots(a + [DOT] + b) == [a] + SplitDots(b)
  {
    var s := a + [DOT] + b;
    if a == [] {
      assert s[1..] == b;
    } else {
      assert s[1..] == a[1..] + [DOT] + b;
      SplitAfter(a[1..], b);
      assert [s[0]] + a[1..] == a;
    }
  }

  lemma {:induction false} SplitJoin(parts: seq<Bytes>)
    requires |parts| > 0 && forall i | 0 <= i < |parts| :: DOT !in parts[i]
    ensures SplitDots(JoinDots(parts)) == parts
  {
    if |parts| == 1 {
      SplitPlain(parts[0]);
    } else {
      SplitJoin(parts[1..]);
      SplitAfter(parts[0], JoinDots(parts[1..]));
      assert parts == [parts[0]] + parts[1..];
    }
  }

  /** `Ipv4Addr::to_string`. */
  function PrintV4(ip: Bytes): Bytes
    requires |ip| == 4
  {
    JoinDots([PrintOctet(ip[0]), PrintOctet(ip[1]), PrintOctet(ip[2]), PrintOctet(ip[3])])
  }

  /** `str::parse::<Ipv4Addr>`. */
  function ParseV4(s: Bytes): (r: Option<Bytes>)
    ensures r.Some? ==> |r.value| == 4
  {
    var p := SplitDots(s);
    if |p| == 4 && ParseOctet(p[0]).Some? && ParseOctet(p[1]).Some? && ParseOctet(p[2]).Some?
        && ParseOctet(p[3]).Some? then
      Some([ParseOctet(p[0]).value, ParseOctet(p[1]).value, ParseOctet(p[2]).value, ParseOctet(p[3]).value])
    else None
  }

  lemma V4RoundTrip(ip: Bytes)
    requires |ip| == 4
    ensures ParseV4(PrintV4(ip)) == Some(ip)
  {
    var parts := [PrintOctet(ip[0]), PrintOctet(ip[1]), PrintOctet(ip[2]), PrintOctet(ip[3])];
    forall i | 0 <= i < 4 ensures ParseOctet(parts[i]) == Some(ip[i]) && DOT !in parts[i] { OctetRoundTrip(ip[i]); }
    SplitJoin(parts);
    assert SplitDots(PrintV4(ip)) == parts;
    assert ParseV4(PrintV4(ip)).value == ip;
  }

  /** IPv4 text has no second spelling. */
  lemma V4IsCanonical(s: Bytes)
    requires ParseV4(s).Some?
    ensures PrintV4(ParseV4(s).value) == s
  {
    var p := SplitDots(s);
    forall i | 0 <= i < 4 ensures PrintOctet(ParseOctet(p[i]).value) == p[i] { OctetIsCanonical(p[i]); }
    JoinSplit(s);
    assert p == [p[0], p[1], p[2], p[3]];
  }

  lemma {:induction false} NoColonJoin(parts: seq<Bytes>)
    requires |parts| > 0 && forall i | 0 <= i < |parts| :: COLON !in parts[i]
    ensures COLON !in JoinDots(parts)
  {
    if |parts| > 1 {
      NoColonJoin(parts[1..]);
    }
  }

  lemma V4HasNoColon(s: Bytes)
    requires ParseV4(s).Some?
    ensures COLON !in s && s != []
  {
    var ip := ParseV4(s).value;
    V4IsCanonical(s);
    forall i | 0 <= i < 4 ensures COLON !in PrintOctet(ip[i]) { OctetRoundTrip(ip[i]); }
    NoColonJoin([PrintOctet(ip[0]), PrintOctet(ip[1]), PrintOctet(ip[2]), PrintOctet(ip[3])]);
  }

  // ---------------------------------------------------------------- IPv6 text

  /** `str::parse::<Ipv6Addr>` and `Ipv6Addr::to_string`. */
  datatype V6 = V6(parse: Bytes -> Option<Bytes>, show: Bytes -> Bytes)

  /** What the codecs rely on: sixteen octets, text with a colon, and printing inverted by parsing. */
  ghost predicate Lawful(v6: V6) {
    && (forall s :: v6.parse(s).Some? ==> |v6.parse(s).value| == 16 && COLON in s)
    && (forall ip | |ip| == 16 :: v6.parse(v6.show(ip)) == Some(ip))
  }

  // ---------------------------------------------------------------- UTF-8

  predicate Continuation(b: Byte) { 0x80 <= b <= 0xBF }

  /** `String::from_utf8` accepts the bytes (section 4 of RFC 3629). */
  predicate ValidUtf8(s: Bytes) {
    if s == [] then true
    else if s[0] <= 0x7F then ValidUtf8(s[1..])
    else if 0xC2 <= s[0] <= 0xDF then |s| >= 2 && Continuation(s[1]) && ValidUtf8(s[2..])
    else if 0xE0 <= s[0] <= 0xEF then
      |s| >= 3 && Continuation(s[1]) && Continuation(s[2])
      && (s[0] == 0xE0 ==> s[1] >= 0xA0) && (s[0] == 0xED ==> s[1] <= 0x9F) && ValidUtf8(s[3..])
    else if 0xF0 <= s[0] <= 0xF4 then
      |s| >= 4 && Continuation(s[1]) && Continuation(s[2]) && Continuation(s[3])
      && (s[0] == 0xF0 ==> s[1] >= 0x90) && (s[0] == 0xF4 ==> s[1] <= 0x8F) && ValidUtf8(s[4..])
    else false
  }
}
