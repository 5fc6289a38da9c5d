/** gui/src/ui/controller/nodes.rs: the editor draft of one node and the profile it edits.

    `FromProfile` and `ApplySpec` form a lens: text in the editor against typed fields in the profile. */
module Draft {
  import opened Common

  // ---------------------------------------------------------------- text

  /** `char::is_whitespace`: Unicode White_Space. */
  predicate IsSpace(c: char) {
    var n := c as int;
    || 9 <= n <= 13 || n == 0x20 || n == 0x85 || n == 0xA0 || n == 0x1680 || 0x2000 <= n <= 0x200A
    || n == 0x2028 || n == 0x2029 || n == 0x202F || n == 0x205F || n == 0x3000
  }

  function TrimStart(s: string): string {
    if s != "" && IsSpace(s[0]) then TrimStart(s[1..]) else s
  }

  function TrimEnd(s: string): string {
    if s != "" && IsSpace(s[|s| - 1]) then TrimEnd(s[..|s| - 1]) else s
  }

  /** `str::trim`. */
  function Trim(s: string): string { TrimEnd(TrimStart(s)) }

  predicate Trimmed(s: string) {
    s != "" ==> !IsSpace(s[0]) && !IsSpace(s[|s| - 1])
  }

  lemma {:induction false} TrimStartLaw(s: string)
    ensures var t := TrimStart(s); t != "" ==> !IsSpace(t[0])
  {
    if s != "" && IsSpace(s[0]) {
      TrimStartLaw(s[1..]);
    }
  }

  lemma {:induction false} TrimEndLaw(s: string)
    ensures var t := TrimEnd(s); t <= s && (t != "" ==> !IsSpace(t[|t| - 1]))
  {
    if s != "" && IsSpace(s[|s| - 1]) {
      TrimEndLaw(s[..|s| - 1]);
    }
  }

  /** Trimming leaves no space at either end, and trimmed text is left alone; so trimming twice is trimming once. */
  lemma TrimLaws(s: string)
    ensures Trimmed(Trim(s)) && Trim(Trim(s)) == Trim(s)
    ensures Trimmed(s) ==> Trim(s) == s
  {
    var t := TrimStart(s);
    TrimStartLaw(s);
    TrimEndLaw(t);
    assert Trim(s) != "" ==> Trim(s)[0] == t[0];
  }

  /** `non_empty_text`. */
  function NonEmptyText(s: string): Option<string> {
    var t := Trim(s);
    if t == "" then None else Some(t)
  }

  function Text(o: Option<string>): string { if o.Some? then o.value else "" }

  // ---------------------------------------------------------------- numbers

  predicate IsDigit(c: char) { '0' <= c <= '9' }

  predicate AllDigits(s: string) { forall i | 0 <= i < |s| :: IsDigit(s[i]) }

  function Decimal(s: string): nat
    requires AllDigits(s)
  {
    if s == "" then 0 else 10 * Decimal(s[..|s| - 1]) + (s[|s| - 1] as int - '0' as int)
  }

  /** `str::parse` for an unsigned integer of at most `max`: an optional plus sign, then digits. */
  function ParseUnsigned(s: string, max: nat): Option<nat> {
    var digits := if s != "" && s[0] == '+' then s[1..] else s;
    if digits == "" || !AllDigits(digits) || Decimal(digits) > max then None else Some(Decimal(digits))
  }

  /** `to_string` of an unsigned integer. */
  function PrintUnsigned(n: nat): string {
    var last := ['0' + (n % 10) as char];
    if n < 10 then last else PrintUnsigned(n / 10) + last
  }

  lemma {:induction false} PrintLaw(n: nat)
    ensures var s := PrintUnsigned(n); s != "" && AllDigits(s) && Decimal(s) == n
  {
    if n >= 10 {
      PrintLaw(n / 10);
      var s := PrintUnsigned(n);
      assert s[..|s| - 1] == PrintUnsigned(n / 10);
    } else {
      assert PrintUnsigned(n)[..0] == "";
    }
  }

  const U16_MAX: nat := 0xFFFF

  function ParsePort(text: string): (r: Option<nat>)
    ensures r.Some? ==> 0 < r.value <= U16_MAX
  {
    var n := ParseUnsigned(Trim(text), U16_MAX);
    if n.Some? && n.value > 0 then n else None
  }

  function ParseTimeout(text: string): (r: Option<nat>)
    ensures r.Some? ==> r.value <= U32_MAX
  {
    ParseUnsigned(Trim(text), U32_MAX)
  }

  /** A printed number is read back. */
  lemma PrintThenParse(n: nat, max: nat)
    requires n <= max
    ensures ParseUnsigned(Trim(PrintUnsigned(n)), max) == Some(n)
  {
    var s := PrintUnsigned(n);
    PrintLaw(n);
    TrimLaws(s);
    assert Trimmed(s) by {
      assert IsDigit(s[0]) && IsDigit(s[|s| - 1]);
    }
  }

  // ---------------------------------------------------------------- congestion control names

  function Lower(s: string): string {
    seq(|s|, i requires 0 <= i < |s| => if 'A' <= s[i] <= 'Z' then s[i] + 32 as char else s[i])
  }

  /** `normalize_congestion_control`. */
  function NormalizeCongestionControl(value: string): Option<string> {
    var s := Lower(Trim(value));
    if s == "bbr" then Some("bbr")
    else if s == "cubic" then Some("cubic")
    else if s == "newreno" || s == "new_reno" then Some("new_reno")
    else None
  }

  /** What the core runs. */
  function Algorithm(value: string): string {
    var n := NormalizeCongestionControl(value);
    if n.Some? then n.value else "bbr"
  }

  lemma CanonicalNames(value: string)
    requires value in {"bbr", "cubic", "new_reno"}
    ensures NormalizeCongestionControl(value) == Some(value)
  {}

  // ---------------------------------------------------------------- profiles and drafts

  datatype Protocol = Juicity | Shadowsocks

  type U16 = n: nat | n <= U16_MAX
  type U32 = n: nat | n <= U32_MAX

  datatype Profile = Profile(
    name: string, protocol: Protocol, server: string, serverPort: U16, password: string, uuid: string,
    sni: Option<string>, allowInsecure: bool, pinned: Option<string>, congestionControl: Option<string>,
    cipher: string, plugin: Option<string>, pluginOpts: Option<string>, pluginArgs: Option<string>,
    timeout: U32, group: Option<string>, configPath: Option<string>, link: Option<string>)

  const DEFAULT_PROFILE: Profile :=
    Profile("New Server", Juicity, "", 443, "", "", None, false, None, None, "chacha20-ietf-poly1305",
            None, None, None, 5, None, None, None)

  datatype DraftData = DraftData(
    name: string, protocol: Protocol, server: string, port: string, uuid: string, password: string, cipher: string,
    sni: string, allowInsecure: bool, pinned: string, congestionControl: string,
    plugin: string, pluginOptions: string, pluginArgs: string, timeout: string, group: string)

  const DEFAULT_DRAFT: DraftData :=
    DraftData("", Juicity, "", "", "", "", "", "", false, "", "", "", "", "", "", "")

  function FromProfile(p: Profile): DraftData {
    DraftData(p.name, p.protocol, p.server, PrintUnsigned(p.serverPort), p.uuid, p.password, p.cipher,
              Text(p.sni), p.allowInsecure, Text(p.pinned),
              if p.congestionControl.Some? then p.congestionControl.value else "bbr",
              Text(p.plugin), Text(p.pluginOpts), Text(p.pluginArgs), PrintUnsigned(p.timeout), Text(p.group))
  }

  datatype Field = Server | Port | Uuid | Password | Timeout

  datatype Fault = Required | BadPort | BadTimeout

  /** `validate::missing_fields`. */
  function MissingFields(protocol: Protocol, server: string, uuid: string, password: string,
      cipher: string): seq<Field> {
    (if Trim(server) == "" then [Server] else [])
    + match protocol
      case Juicity => (if Trim(uuid) == "" then [Uuid] else []) + (if password == "" then [Password] else [])
      case Shadowsocks => if password == "" && cipher != "none" && cipher != "plain" then [Password] else []
  }

  function Missing(d: DraftData): seq<Field> { MissingFields(d.protocol, d.server, d.uuid, d.password, d.cipher) }

  /** `errors`. */
  function Errors(d: DraftData): seq<(Field, Fault)> {
    var missing := Missing(d);
    seq(|missing|, i requires 0 <= i < |missing| => (missing[i], Required))
    + (if ParsePort(d.port).None? then [(Port, BadPort)] else [])
    + (if ParseTimeout(d.timeout).None? then [(Timeout, BadTimeout)] else [])
  }

  predicate InError(d: DraftData, f: Field) {
    match f
    case Port => ParsePort(d.port).None?
    case Timeout => ParseTimeout(d.timeout).None?
    case _ => f in Missing(d)
  }

  function CheckedText(d: DraftData, f: Field): string {
    match f
    case Server => d.server
    case Port => d.port
    case Uuid => d.uuid
    case Password => d.password
    case Timeout => d.timeout
  }

  /** `unapplied`: some field in error shows text that the profile does not hold. */
  predicate Unapplied(d: DraftData, p: Profile) {
    exists i | 0 <= i < |Errors(d)| :: CheckedText(d, Errors(d)[i].0) != CheckedText(FromProfile(p), Errors(d)[i].0)
  }

  lemma MissingLaw(d: DraftData)
    ensures forall i | 0 <= i < |Missing(d)| :: Missing(d)[i] in {Server, Uuid, Password}
    ensures forall i, j | 0 <= i < j < |Missing(d)| :: Missing(d)[i] != Missing(d)[j]
  {}

  function FaultOf(f: Field): Fault {
    match f case Port => BadPort case Timeout => BadTimeout case _ => Required
  }

  /** `errors` lists exactly the fields in error, each once and with its own reason. */
  lemma ErrorsListed(d: DraftData, f: Field)
    ensures InError(d, f) <==> exists i :: 0 <= i < |Errors(d)| && Errors(d)[i].0 == f
    ensures forall i, j | 0 <= i < j < |Errors(d)| :: Errors(d)[i].0 != Errors(d)[j].0
    ensures forall i | 0 <= i < |Errors(d)| :: Errors(d)[i].1 == FaultOf(Errors(d)[i].0)
  {
    MissingLaw(d);
    hide Missing, ParsePort, ParseTimeout;
    var m, e := Missing(d), Errors(d);
    assert forall i | 0 <= i < |m| :: e[i].0 == m[i];
    assert ParsePort(d.port).None? ==> e[|m|].0 == Port;
    assert ParseTimeout(d.timeout).None? ==> e[|e| - 1].0 == Timeout;
  }

  // ---------------------------------------------------------------- writing a draft into a profile

  function TextField(typed: string, was: string): string { if typed != was then Trim(typed) else was }

  function OptionField(typed: string, was: Option<string>): Option<string> {
    if typed != Text(was) then NonEmptyText(typed) else was
  }

  function CongestionField(typed: string, was: Option<string>): Option<string> {
    if typed != (if was.Some? then was.value else "bbr") then NormalizeCongestionControl(typed) else was
  }

  /** The profile after `apply_to`. */
  function ApplySpec(d: DraftData, p: Profile): Profile {
    var port: U16 := if InError(d, Port) then p.serverPort else ParsePort(d.port).value;
    var timeout: U32 := if InError(d, Timeout) then p.timeout else ParseTimeout(d.timeout).value;
    p.(name := TextField(d.name, p.name),
       protocol := d.protocol,
       server := if InError(d, Server) then p.server else TextField(d.server, p.server),
       serverPort := port,
       uuid := if InError(d, Uuid) then p.uuid else TextField(d.uuid, p.uuid),
       password := if InError(d, Password) then p.password else d.password,
       cipher := d.cipher,
       sni := OptionField(d.sni, p.sni),
       allowInsecure := d.allowInsecure,
       pinned := OptionField(d.pinned, p.pinned),
       congestionControl := CongestionField(d.congestionControl, p.congestionControl),
       plugin := OptionField(d.plugin, p.plugin),
       pluginOpts := OptionField(d.pluginOptions, p.pluginOpts),
       pluginArgs := OptionField(d.pluginArgs, p.pluginArgs),
       timeout := timeout,
       group := OptionField(d.group, p.group))
  }

  /** A profile in the working list. */
  class ProfileSlot {
    var profile: Profile

    constructor (p: Profile)
      ensures profile == p
    {
      profile := p;
    }

    /** `apply_to`: compares with the text read before the first write. */
    method Apply(d: DraftData)
      modifies this
      ensures profile == ApplySpec(d, old(profile))
    {
      hide PrintUnsigned, Missing, ParsePort, ParseTimeout, TextField, OptionField, CongestionField;
      var current := FromProfile(profile);
      ApplyConnection(d, current);
      ApplyTransport(d, current);
      ApplyPlugin(d, current);
    }

    method ApplyConnection(d: DraftData, current: DraftData)
      requires current == FromProfile(profile)
      modifies this
      ensures var p := old(profile);
              profile == p.(
                name := TextField(d.name, p.name), protocol := d.protocol,
                server := if InError(d, Server) then p.server else TextField(d.server, p.server),
                serverPort := if InError(d, Port) then p.serverPort else ParsePort(d.port).value,
                uuid := if InError(d, Uuid) then p.uuid else TextField(d.uuid, p.uuid),
                password := if InError(d, Password) then p.password else d.password, cipher := d.cipher)
    {
      hide PrintUnsigned, Missing, ParsePort, ParseTimeout, Trim;
      var missing := Missing(d);
      if d.name != current.name { profile := profile.(name := Trim(d.name)); }
      profile := profile.(protocol := d.protocol);
      if d.server != current.server && Server !in missing { profile := profile.(server := Trim(d.server)); }
      var port := ParsePort(d.port);
      if port.Some? { profile := profile.(serverPort := port.value); }
      if d.uuid != current.uuid && Uuid !in missing { profile := profile.(uuid := Trim(d.uuid)); }
      if Password !in missing { profile := profile.(password := d.password); }
      profile := profile.(cipher := d.cipher);
    }

    method ApplyTransport(d: DraftData, current: DraftData)
      requires current.sni == Text(profile.sni) && current.pinned == Text(profile.pinned)
      requires current.congestionControl ==
               if profile.congestionControl.Some? then profile.congestionControl.value else "bbr"
      modifies this
      ensures var p := old(profile);
              profile == p.(
                sni := OptionField(d.sni, p.sni), allowInsecure := d.allowInsecure,
                    pinned := OptionField(d.pinned, p.pinned),
                congestionControl := CongestionField(d.congestionControl, p.congestionControl))
    {
      hide NonEmptyText, NormalizeCongestionControl;
      if d.sni != current.sni { profile := profile.(sni := NonEmptyText(d.sni)); }
      profile := profile.(allowInsecure := d.allowInsecure);
      if d.pinned != current.pinned { profile := profile.(pinned := NonEmptyText(d.pinned)); }
      if d.congestionControl != current.congestionControl {
        profile := profile.(congestionControl := NormalizeCongestionControl(d.congestionControl));
      }
    }

    method ApplyPlugin(d: DraftData, current: DraftData)
      requires current.plugin == Text(profile.plugin) && current.pluginOptions == Text(profile.pluginOpts)
      requires current.pluginArgs == Text(profile.pluginArgs) && current.group == Text(profile.group)
      modifies this
      ensures var p := old(profile);
              profile == p.(
                plugin := OptionField(d.plugin, p.plugin), pluginOpts := OptionField(d.pluginOptions, p.pluginOpts),
                pluginArgs := OptionField(d.pluginArgs, p.pluginArgs),
                timeout := if InError(d, Timeout) then p.timeout else ParseTimeout(d.timeout).value,
                group := OptionField(d.group, p.group))
    {
      hide NonEmptyText, ParsePort, ParseTimeout;
      if d.plugin != current.plugin { profile := profile.(plugin := NonEmptyText(d.plugin)); }
      if d.pluginOptions != current.pluginOptions { profile := profile.(pluginOpts := NonEmptyText(d.pluginOptions)); }
      if d.pluginArgs != current.pluginArgs { profile := profile.(pluginArgs := NonEmptyText(d.pluginArgs)); }
      var timeout := ParseTimeout(d.timeout);
      if timeout.Some? { profile := profile.(timeout := timeout.value); }
      if d.group != current.group { profile := profile.(group := NonEmptyText(d.group)); }
    }
  }

  // ---------------------------------------------------------------- laws of single fields

  lemma FieldLaws(typed: string, was: string, o: Option<string>, c: Option<string>)
    ensures TextField(typed, TextField(typed, was)) == TextField(typed, was)
    ensures OptionField(typed, OptionField(typed, o)) == OptionField(typed, o)
    ensures CongestionField(typed, CongestionField(typed, c)) == CongestionField(typed, c)
    ensures Trim(TextField(typed, was)) == Trim(typed)
    ensures Trim(Text(OptionField(typed, o))) == Trim(typed)
    ensures var r := CongestionField(typed, c);
            Algorithm(if r.Some? then r.value else "bbr") == Algorithm(typed)
  {
    TrimLaws(typed);
    var n := NormalizeCongestionControl(typed);
    CanonicalNames("bbr");
    if n.Some? {
      CanonicalNames(n.value);
    }
    hide NormalizeCongestionControl, Trim;
  }

  lemma NumbersReadBack(p: Profile)
    ensures p.serverPort > 0 ==> ParsePort(PrintUnsigned(p.serverPort)) == Some(p.serverPort)
    ensures p.serverPort == 0 ==> ParsePort(PrintUnsigned(p.serverPort)) == None
    ensures ParseTimeout(PrintUnsigned(p.timeout)) == Some(p.timeout)
  {
    PrintThenParse(p.serverPort, U16_MAX);
    PrintThenParse(p.timeout, U32_MAX);
  }

  // ---------------------------------------------------------------- the lens laws

  /** Opening the editor and writing back what it shows changes no profile whatsoever. */
  lemma GetPut(p: Profile)
    ensures ApplySpec(FromProfile(p), p) == p
  {
    NumbersReadBack(p);
    hide ParsePort, ParseTimeout, PrintUnsigned, Missing;
  }

  /** Writing a draft twice is writing it once, errors or not. */
  lemma ApplyIsIdempotent(d: DraftData, p: Profile)
    ensures ApplySpec(d, ApplySpec(d, p)) == ApplySpec(d, p)
  {}

  /** The same text up to trimming, the same number, the same congestion control algorithm. */
  predicate Same(a: DraftData, b: DraftData, f: Field) {
    match f
    case Server => Trim(a.server) == Trim(b.server)
    case Port => ParsePort(a.port) == ParsePort(b.port)
    case Uuid => Trim(a.uuid) == Trim(b.uuid)
    case Password => a.password == b.password
    case Timeout => ParseTimeout(a.timeout) == ParseTimeout(b.timeout)
  }

  /** The fields that are never in error. */
  predicate SameElsewhere(a: DraftData, b: DraftData) {
    && a.protocol == b.protocol && a.cipher == b.cipher && a.allowInsecure == b.allowInsecure
    && Trim(a.name) == Trim(b.name) && Trim(a.sni) == Trim(b.sni) && Trim(a.pinned) == Trim(b.pinned)
    && Trim(a.plugin) == Trim(b.plugin) && Trim(a.pluginOptions) == Trim(b.pluginOptions)
    && Trim(a.pluginArgs) == Trim(b.pluginArgs) && Trim(a.group) == Trim(b.group)
    && Algorithm(a.congestionControl) == Algorithm(b.congestionControl)
  }

  predicate Equivalent(a: DraftData, b: DraftData) {
    SameElsewhere(a, b) && forall f: Field :: Same(a, b, f)
  }

  /** What is stored of field `f`, exactly. */
  predicate Kept(p: Profile, q: Profile, f: Field) {
    match f
    case Server => p.server == q.server
    case Port => p.serverPort == q.serverPort
    case Uuid => p.uuid == q.uuid
    case Password => p.password == q.password
    case Timeout => p.timeout == q.timeout
  }

  /** Every draft, field by field: a field in error keeps the profile's value, any other field is stored faithfully,
      and nothing outside the editor is touched. */
  lemma ApplyFieldByField(d: DraftData, p: Profile, f: Field)
    ensures var q := ApplySpec(d, p);
            && (if InError(d, f) then Kept(p, q, f) else Same(FromProfile(q), d, f))
            && q.configPath == p.configPath && q.link == p.link
  {
    var q := ApplySpec(d, p);
    FieldLaws(d.server, p.server, p.sni, p.congestionControl);
    FieldLaws(d.uuid, p.uuid, p.sni, p.congestionControl);
    NumbersReadBack(q);
    hide ParsePort, ParseTimeout, PrintUnsigned, TextField, Trim, Missing;
  }

  lemma ApplyElsewhere(d: DraftData, p: Profile)
    ensures SameElsewhere(FromProfile(ApplySpec(d, p)), d)
  {
    hide ParsePort, ParseTimeout, PrintUnsigned, Missing, TextField, OptionField, CongestionField, Trim, Algorithm;
    FieldLaws(d.name, p.name, p.sni, p.congestionControl);
    FieldLaws(d.sni, "", p.sni, p.congestionControl);
    FieldLaws(d.pinned, "", p.pinned, p.congestionControl);
    FieldLaws(d.congestionControl, "", p.sni, p.congestionControl);
    FieldLaws(d.plugin, "", p.plugin, p.congestionControl);
    FieldLaws(d.pluginOptions, "", p.pluginOpts, p.congestionControl);
    FieldLaws(d.pluginArgs, "", p.pluginArgs, p.congestionControl);
    FieldLaws(d.group, "", p.group, p.congestionControl);
  }

  /** After writing an error-free draft the editor would show the same settings. */
  lemma PutGet(d: DraftData, p: Profile)
    requires Errors(d) == []
    ensures Equivalent(FromProfile(ApplySpec(d, p)), d)
  {
    ApplyElsewhere(d, p);
    forall f: Field ensures Same(FromProfile(ApplySpec(d, p)), d, f) {
      ErrorsListed(d, f);
      ApplyFieldByField(d, p, f);
    }
  }

  /** If nothing is left unapplied after a write, the profile represents the whole draft, even one with errors. */
  lemma NothingUnappliedMeansRepresented(d: DraftData, p: Profile)
    requires !Unapplied(d, ApplySpec(d, p))
    ensures Equivalent(FromProfile(ApplySpec(d, p)), d)
  {
    ApplyElsewhere(d, p);
    var stored := FromProfile(ApplySpec(d, p));
    forall f: Field ensures Same(stored, d, f) {
      ErrorsListed(d, f);
      ApplyFieldByField(d, p, f);
      if InError(d, f) {
        hide Errors, FromProfile, ApplySpec, ParsePort, ParseTimeout, Trim;
        assert CheckedText(d, f) == CheckedText(stored, f);
      }
    }
  }

  /** The last error-free write wins: an earlier one leaves no trace in what the editor shows. */
  lemma LastWriteWins(first: DraftData, second: DraftData, p: Profile)
    requires Errors(second) == []
    ensures Equivalent(FromProfile(ApplySpec(second, ApplySpec(first, p))), FromProfile(ApplySpec(second, p)))
  {
    hide Equivalent, FromProfile, ApplySpec, Errors;
    PutGet(second, ApplySpec(first, p));
    PutGet(second, p);
    EquivalentToBoth(FromProfile(ApplySpec(second, ApplySpec(first, p))), FromProfile(ApplySpec(second, p)), second);
  }

  lemma EquivalentToBoth(a: DraftData, b: DraftData, c: DraftData)
    requires Equivalent(a, c) && Equivalent(b, c)
    ensures Equivalent(a, b)
  {
    hide Trim, ParsePort, ParseTimeout, Algorithm;
    forall f: Field ensures Same(a, b, f) {
      assert Same(a, c, f) && Same(b, c, f);
    }
  }

  /** Stored text is trimmed, optional text is absent rather than empty, congestion control is a canonical name. */
  predicate Tidy(p: Profile) {
    && Trimmed(p.name) && Trimmed(p.server) && Trimmed(p.uuid)
    && TidyOption(p.sni) && TidyOption(p.pinned) && TidyOption(p.plugin) && TidyOption(p.pluginOpts)
    && TidyOption(p.pluginArgs) && TidyOption(p.group)
    && (p.congestionControl.Some? ==> p.congestionControl.value in {"bbr", "cubic", "new_reno"})
  }

  predicate TidyOption(o: Option<string>) { o.Some? ==> o.value != "" && Trimmed(o.value) }

  /** Whatever is typed, the editor keeps profiles tidy. */
  lemma ApplyKeepsTidy(d: DraftData, p: Profile)
    requires Tidy(p)
    ensures Tidy(ApplySpec(d, p))
  {
    TrimLaws(d.name);
    TrimLaws(d.server);
    TrimLaws(d.uuid);
    TrimLaws(d.sni);
    TrimLaws(d.pinned);
    TrimLaws(d.plugin);
    TrimLaws(d.pluginOptions);
    TrimLaws(d.pluginArgs);
    TrimLaws(d.group);
    hide Trim, Trimmed, ParsePort, ParseTimeout, Missing;
  }
}
