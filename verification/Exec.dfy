/** gui/src/desktop/autostart.rs: the `Exec` argument of a desktop entry, and a decoder for it.

    The decoder follows the sections "Possible value types" and "The Exec key" of the Desktop Entry Specification. */
module Exec {
  import opened Common

  /** Each character replaced by a string. */
  function Flat(f: char -> string, s: string): string {
    if s == "" then "" else f(s[0]) + Flat(f, s[1..])
  }

  lemma {:induction false} FlatSnoc(f: char -> string, s: string, c: char)
    ensures Flat(f, s + [c]) == Flat(f, s) + f(c)
  {
    if s == "" {
      assert (s + [c])[1..] == "";
    } else {
      FlatSnoc(f, s[1..], c);
      assert (s + [c])[1..] == s[1..] + [c];
    }
  }

  // ---------------------------------------------------------------- the encoder

  predicate IsReserved(c: char) {
    c in {' ', '\t', '\n', '"', '\'', '\\', '>', '<', '~', '|', '&', ';', '$', '*', '?', '#', '(', ')', '`'}
  }

  predicate HasReserved(s: string) { exists i :: 0 <= i < |s| && IsReserved(s[i]) }

  /** The characters that need a backslash between double quotes. */
  predicate IsSpecial(c: char) { c in {'"', '`', '$', '\\'} }

  function InQuotes(c: char): string { if IsSpecial(c) then ['\\', c] else [c] }

  /** String escapes, and doubling of the percent sign. */
  function Escaped(c: char): string {
    match c
    case '%' => "%%"
    case '\\' => "\\\\"
    case '\n' => "\\n"
    case '\t' => "\\t"
    case '\r' => "\\r"
    case _ => [c]
  }

  function Quoted(arg: string): string {
    if HasReserved(arg) then "\"" + Flat(InQuotes, arg) + "\"" else arg
  }

  /** `exec_argument`. */
  function Encode(arg: string): string { Flat(Escaped, Quoted(arg)) }

  method ContainsReserved(arg: string) returns (r: bool)
    ensures r == HasReserved(arg)
  {
    for i := 0 to |arg|
      invariant forall k | 0 <= k < i :: !IsReserved(arg[k])
    {
      if IsReserved(arg[i]) {
        return true;
      }
    }
    r := false;
  }

  method ExecArgument(arg: string) returns (out: string)
    ensures out == Encode(arg)
  {
    var quoted := arg;
    var reserved := ContainsReserved(arg);
    if reserved {
      quoted := "\"";
      for i := 0 to |arg|
        invariant quoted == "\"" + Flat(InQuotes, arg[..i])
      {
        var c := arg[i];
        FlatSnoc(InQuotes, arg[..i], c);
        assert arg[..i + 1] == arg[..i] + [c];
        if c == '"' || c == '`' || c == '$' || c == '\\' {
          quoted := quoted + ['\\'];
        }
        quoted := quoted + [c];
      }
      assert arg[..|arg|] == arg;
      quoted := quoted + ['"'];
    }
    out := "";
    for i := 0 to |quoted|
      invariant out == Flat(Escaped, quoted[..i])
    {
      var c := quoted[i];
      FlatSnoc(Escaped, quoted[..i], c);
      assert quoted[..i + 1] == quoted[..i] + [c];
      if c == '%' {
        out := out + "%%";
      } else if c == '\\' {
        out := out + "\\\\";
      } else if c == '\n' {
        out := out + "\\n";
      } else if c == '\t' {
        out := out + "\\t";
      } else if c == '\r' {
        out := out + "\\r";
      } else {
        out := out + [c];
      }
    }
    assert quoted[..|quoted|] == quoted;
  }

  // ---------------------------------------------------------------- the decoder

  function Prepend(c: char, s: Option<string>): Option<string> {
    if s.Some? then Some([c] + s.value) else None
  }

  /** The string value type: \s, \n, \t, \r and \\ are the escapes. */
  function Unescape(s: string): Option<string> {
    if s == "" then Some("")
    else if s[0] != '\\' then Prepend(s[0], Unescape(s[1..]))
    else if |s| == 1 then None
    else match s[1]
      case 's' => Prepend(' ', Unescape(s[2..]))
      case 'n' => Prepend('\n', Unescape(s[2..]))
      case 't' => Prepend('\t', Unescape(s[2..]))
      case 'r' => Prepend('\r', Unescape(s[2..]))
      case '\\' => Prepend('\\', Unescape(s[2..]))
      case _ => None
  }

  /** After an opening quote: the argument up to the closing quote, and what follows it. */
  function ReadQuoted(s: string): (r: Option<(string, string)>)
    ensures r.Some? ==> |r.value.1| < |s|
  {
    if s == "" then None
    else if s[0] == '"' then Some(("", s[1..]))
    else if s[0] == '\\' then
      if |s| == 1 || !IsSpecial(s[1]) then None
      else
        var r := ReadQuoted(s[2..]);
        if r.Some? then Some(([s[1]] + r.value.0, r.value.1)) else None
    else if IsSpecial(s[0]) then None
    else
      var r := ReadQuoted(s[1..]);
      if r.Some? then Some(([s[0]] + r.value.0, r.value.1)) else None
  }

  /** An argument without quotes: up to the next space, and without reserved characters. */
  function ReadPlain(s: string): (r: Option<(string, string)>)
    ensures r.Some? ==> |r.value.1| <= |s|
    ensures r.Some? && s != "" && s[0] != ' ' ==> |r.value.1| < |s|
  {
    if s == "" || s[0] == ' ' then Some(("", s))
    else if IsReserved(s[0]) then None
    else
      var r := ReadPlain(s[1..]);
      if r.Some? then Some(([s[0]] + r.value.0, r.value.1)) else None
  }

  /** The command line split into arguments. */
  function Arguments(s: string): Option<seq<string>>
    decreases |s|
  {
    if s == "" then Some([])
    else if s[0] == ' ' then Arguments(s[1..])
    else
      var r := if s[0] == '"' then ReadQuoted(s[1..]) else ReadPlain(s);
      if r.None? || (r.value.1 != "" && r.value.1[0] != ' ') then None
      else
        var rest := Arguments(r.value.1);
        if rest.Some? then Some([r.value.0] + rest.value) else None
  }

  /** Field codes: a doubled percent sign is a literal one, any other code stands for something else. */
  function Literal(s: string): Option<string> {
    if s == "" then Some("")
    else if s[0] != '%' then Prepend(s[0], Literal(s[1..]))
    else if |s| == 1 || s[1] != '%' then None
    else Prepend('%', Literal(s[2..]))
  }

  function AllLiteral(args: seq<string>): Option<seq<string>> {
    if args == [] then Some([])
    else
      var (first, rest) := (Literal(args[0]), AllLiteral(args[1..]));
      if first.Some? && rest.Some? then Some([first.value] + rest.value) else None
  }

  /** The arguments that a launcher passes for an `Exec` value. */
  function Decode(value: string): Option<seq<string>> {
    var line := Unescape(value);
    if line.None? then None
    else
      var args := Arguments(line.value);
      if args.None? then None else AllLiteral(args.value)
  }

  // ---------------------------------------------------------------- round trip

  function Doubled(c: char): string { if c == '%' then "%%" else [c] }

  lemma {:induction false} UnescapeInvertsEscaped(s: string)
    ensures Unescape(Flat(Escaped, s)) == Some(Flat(Doubled, s))
  {
    if s != "" {
      UnescapeInvertsEscaped(s[1..]);
      hide Unescape, Escaped, Doubled;
      CharacterIsUnescaped(s[0], Flat(Escaped, s[1..]), Flat(Doubled, s[1..]));
    }
  }

  lemma CharacterIsUnescaped(c: char, rest: string, tail: string)
    requires Unescape(rest) == Some(tail)
    ensures Unescape(Escaped(c) + rest) == Some(Doubled(c) + tail)
  {
    var all := Escaped(c) + rest;
    if c == '%' {
      assert all[1..] == "%" + rest && all[1..][1..] == rest;
      assert Unescape(all[1..]) == Some("%" + tail);
      assert "%" + ("%" + tail) == "%%" + tail;
    } else if |Escaped(c)| == 2 {
      assert all[2..] == rest;
    } else {
      assert all[1..] == rest;
    }
  }

  lemma {:induction false} QuotedIsRead(arg: string)
    ensures ReadQuoted(Flat(Doubled, Flat(InQuotes, arg)) + "\"") == Some((Flat(Doubled, arg), ""))
  {
    if arg == "" {
      assert Flat(Doubled, Flat(InQuotes, arg)) + "\"" == "\"";
    } else {
      QuotedIsRead(arg[1..]);
      var c, more := arg[0], Flat(InQuotes, arg[1..]);
      var rest := Flat(Doubled, more) + "\"";
      QuotedUnfolds(c, more);
      assert Flat(Doubled, arg) == Doubled(c) + Flat(Doubled, arg[1..]);
      hide Flat;
      assert Flat(Doubled, InQuotes(c) + more) + "\"" == (if IsSpecial(c) then ['\\', c] else Doubled(c)) + rest;
      CharacterIsRead(c, rest, Flat(Doubled, arg[1..]));
    }
  }

  lemma QuotedUnfolds(c: char, more: string)
    ensures Flat(Doubled, InQuotes(c) + more) == (if IsSpecial(c) then ['\\', c] else Doubled(c)) + Flat(Doubled, more)
  {}

  /** One character of an argument, as the encoder writes it, goes through the quote reader unchanged. */
  lemma CharacterIsRead(c: char, rest: string, tail: string)
    requires ReadQuoted(rest) == Some((tail, ""))
    ensures ReadQuoted((if IsSpecial(c) then ['\\', c] else Doubled(c)) + rest) == Some((Doubled(c) + tail, ""))
  {
    if IsSpecial(c) {
      assert (['\\', c] + rest)[2..] == rest;
    } else if c == '%' {
      var all := "%%" + rest;
      assert all[1..] == "%" + rest && all[1..][1..] == rest;
      assert ReadQuoted(all[1..]) == Some(("%" + tail, ""));
      assert "%" + ("%" + tail) == "%%" + tail;
    } else {
      assert ([c] + rest)[1..] == rest;
    }
  }

  lemma {:induction false} PlainIsRead(arg: string)
    requires !HasReserved(arg)
    ensures ReadPlain(Flat(Doubled, arg)) == Some((Flat(Doubled, arg), ""))
  {
    if arg != "" {
      assert !IsReserved(arg[0]);
      assert forall i | 0 <= i < |arg[1..]| :: arg[1..][i] == arg[i + 1];
      PlainIsRead(arg[1..]);
      hide ReadPlain, Doubled, HasReserved, IsReserved;
      PlainCharacterIsRead(arg[0], Flat(Doubled, arg[1..]));
    }
  }

  lemma PlainCharacterIsRead(c: char, rest: string)
    requires !IsReserved(c) && ReadPlain(rest) == Some((rest, ""))
    ensures ReadPlain(Doubled(c) + rest) == Some((Doubled(c) + rest, ""))
  {
    if c == '%' {
      var all := "%%" + rest;
      assert all[1..] == "%" + rest && all[1..][1..] == rest;
      assert ReadPlain(all[1..]) == Some(("%" + rest, ""));
      assert all == "%" + ("%" + rest);
    } else {
      assert ([c] + rest)[1..] == rest;
    }
  }

  lemma {:induction false} LiteralInvertsDoubled(s: string)
    ensures Literal(Flat(Doubled, s)) == Some(s)
  {
    if s != "" {
      LiteralInvertsDoubled(s[1..]);
      var all, rest := Flat(Doubled, s), Flat(Doubled, s[1..]);
      if s[0] == '%' {
        assert all == ['%', '%'] + rest;
        assert all[2..] == rest;
      } else {
        assert all[1..] == rest;
      }
      assert [s[0]] + s[1..] == s;
    }
  }

  lemma QuotedDoubled(arg: string)
    requires HasReserved(arg)
    ensures Flat(Doubled, Quoted(arg)) == "\"" + (Flat(Doubled, Flat(InQuotes, arg)) + "\"")
  {
    var body := Flat(InQuotes, arg);
    FlatSnoc(Doubled, "\"" + body, '"');
    assert ("\"" + body)[1..] == body;
    assert Flat(Doubled, "\"" + body) == "\"" + Flat(Doubled, body);
    assert Quoted(arg) == "\"" + body + ['"'];
  }

  lemma ArgumentsOf(arg: string)
    requires arg != ""
    ensures Arguments(Flat(Doubled, Quoted(arg))) == Some([Flat(Doubled, arg)])
  {
    var line := Flat(Doubled, Quoted(arg));
    assert Arguments("") == Some([]);
    assert [Flat(Doubled, arg)] + [] == [Flat(Doubled, arg)];
    if HasReserved(arg) {
      QuotedDoubled(arg);
      QuotedIsRead(arg);
      assert line[0] == '"';
      assert line[1..] == Flat(Doubled, Flat(InQuotes, arg)) + "\"";
    } else {
      PlainIsRead(arg);
      assert !IsReserved(arg[0]);
      assert line[0] == arg[0];
    }
  }

  /** A launcher gets exactly the one argument that was encoded, if and only if the argument is not empty. */
  lemma RoundTripIff(arg: string)
    ensures Decode(Encode(arg)) == Some([arg]) <==> arg != ""
    ensures arg == "" ==> Decode(Encode(arg)) == Some([])
  {
    hide HasReserved;
    if arg == "" {
      assert Quoted("") == "" by { assert !HasReserved("") by { NothingReserved(); } }
    } else {
      UnescapeInvertsEscaped(Quoted(arg));
      ArgumentsOf(arg);
      LiteralInvertsDoubled(arg);
      hide Arguments, Unescape, Literal, Quoted, Flat;
      assert [Flat(Doubled, arg)][1..] == [];
      assert AllLiteral([]) == Some([]);
      assert [arg] + [] == [arg];
    }
  }

  lemma NothingReserved()
    ensures !HasReserved("")
  {}

  /** Different paths give different entries. */
  lemma EncodeIsInjective(a: string, b: string)
    requires Encode(a) == Encode(b)
    ensures a == b
  {
    RoundTripIff(a);
    RoundTripIff(b);
    hide Encode, Decode;
    assert a != "" && b != "" ==> [a][0] == [b][0];
  }

  // ---------------------------------------------------------------- the file

  predicate Breaks(c: char) { c == '\n' || c == '\t' || c == '\r' }

  /** The value never breaks its line. */
  lemma {:induction false} EscapedStaysOnItsLine(s: string)
    ensures forall i | 0 <= i < |Flat(Escaped, s)| :: !Breaks(Flat(Escaped, s)[i])
  {
    if s != "" {
      EscapedStaysOnItsLine(s[1..]);
      assert forall i | 0 <= i < |Escaped(s[0])| :: !Breaks(Escaped(s[0])[i]);
    }
  }

  function Line(s: string): string {
    if s == "" || s[0] == '\n' then "" else [s[0]] + Line(s[1..])
  }

  lemma {:induction false} LineEnds(value: string, rest: string)
    requires forall i | 0 <= i < |value| :: !Breaks(value[i])
    ensures Line(value + "\n" + rest) == value
  {
    var s := value + "\n" + rest;
    if value == "" {
      assert s[0] == '\n';
    } else {
      assert !Breaks(value[0]);
      assert s[1..] == value[1..] + "\n" + rest;
      LineEnds(value[1..], rest);
    }
  }

  const ENTRY_HEAD: string :=
    "[Desktop Entry]\nType=Application\nName=Juicity GUI\nComment=Juicity GUI Client\nExec="

  const ENTRY_TAIL: string :=
    "Icon=io.juicity.gui\nTerminal=false\nCategories=Network;\nX-GNOME-Autostart-enabled=true\n"

  /** `desktop_entry`. */
  function DesktopEntry(exe: string): string { ENTRY_HEAD + Encode(exe) + "\n" + ENTRY_TAIL }

  /** Whatever the path of the executable, the file's Exec line starts that one program and the lines after it stay
      put. */
  lemma EntryStartsTheProgram(exe: string)
    requires exe != ""
    ensures var value := Line(DesktopEntry(exe)[|ENTRY_HEAD|..]);
            && Decode(value) == Some([exe])
            && DesktopEntry(exe) == ENTRY_HEAD + value + "\n" + ENTRY_TAIL
  {
    EscapedStaysOnItsLine(Quoted(exe));
    LineEnds(Encode(exe), ENTRY_TAIL);
    RoundTripIff(exe);
    hide Decode, Line, Encode;
    AfterHead(ENTRY_HEAD, Encode(exe), ENTRY_TAIL);
  }

  lemma AfterHead(head: string, value: string, tail: string)
    ensures (head + value + "\n" + tail)[|head|..] == value + "\n" + tail
  {}
}
