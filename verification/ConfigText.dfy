/** Loading the configuration text, and the quoted fields that the generated
    text carries. */
module ConfigText {
  import opened GoQuoting
  import opened Splitting
  import opened Text
  import opened Wrappers

  // ----------------------------------------------------------- one line's text

  datatype Quotes = Quotes(single: bool, double: bool)

  function Toggle(q: Quotes, c: char): Quotes {
    if c == '\'' && !q.double then q.(single := !q.single)
    else if c == '"' && !q.single then q.(double := !q.double)
    else q
  }

  /** Everything before the first '#' outside quotes, counting every quote. */
  function Strip(s: string, q: Quotes): string {
    if s == "" || (s[0] == '#' && !q.single && !q.double) then ""
    else [s[0]] + Strip(s[1..], Toggle(q, s[0]))
  }

  method StripComment(s: string) returns (r: string)
    ensures r == Strip(s, Quotes(false, false))
  {
    var inSingle, inDouble := false, false;
    for i := 0 to |s|
      invariant Strip(s, Quotes(false, false)) == s[..i] + Strip(s[i..], Quotes(inSingle, inDouble))
    {
      if s[i] == '#' && !inSingle && !inDouble { return s[..i]; }
      assert s[..i] + ([s[i]] + Strip(s[i + 1..], Toggle(Quotes(inSingle, inDouble), s[i])))
          == s[..i + 1] + Strip(s[i + 1..], Toggle(Quotes(inSingle, inDouble), s[i]));
      if s[i] == '\'' && !inDouble { inSingle := !inSingle; }
      else if s[i] == '"' && !inSingle { inDouble := !inDouble; }
    }
    r := s;
  }

  function Stripped(s: string): string {
    Strip(s, Quotes(false, false))
  }

  function TrimQuotes(text: string): string {
    var s := TrimSpace(text);
    if |s| >= 2 && s[0] == '"' && Last(s) == '"' && Unquote(s).Some? then Unquote(s).value
    else if |s| >= 2 && s[0] == '\'' && Last(s) == '\'' then s[1..|s| - 1]
    else s
  }

  function TrimBlanks(s: string): string {
    if s != "" && (Last(s) == ' ' || Last(s) == '\t') then TrimBlanks(Front(s)) else s
  }

  function Indent(s: string): nat {
    if s != "" && s[0] == ' ' then 1 + Indent(s[1..]) else 0
  }

  /** The item between two commas, if there is one. */
  function Item(part: string): seq<string> {
    var item := TrimQuotes(part);
    if item == "" then [] else [item]
  }

  function ParseItems(parts: seq<string>): seq<string> {
    FlatMap(Item, parts)
  }

  function ParseList(text: string): seq<string> {
    var s := TrimSuffix(TrimPrefix(TrimSpace(text), "["), "]");
    if TrimSpace(s) == "" then [] else ParseItems(Split(s, ','))
  }

  // -------------------------------------------------------------------- loader

  type Name = (string, string)

  /** Scalar and list settings by section and key. */
  datatype Config = Config(scalars: map<Name, string>, lists: map<Name, seq<string>>)

  datatype Pending = Pending(name: Name, indent: nat)

  datatype State = State(section: string, subsection: string, subIndent: nat, pending: Option<Pending>, config: Config)

  const SECTIONS := {"github", "image", "pool", "storage", "logging", "runner", "security", "provider", "docker",
                     "dockerSandboxes", "timeouts"}

  predicate IsListKey(name: Name) {
    match name.0
    case "image" => name.1 == "customInstallScripts" || name.1 == "trustedCaCertificatePaths" || name.1 == "hostTrustScopes"
    case "runner" => name.1 == "labels"
    case "docker" => name.1 == "registryMirrors"
    case "dockerSandboxes" => name.1 == "additionalAllow" || name.1 == "additionalDeny"
    case "logging" => name.1 == "managerSinks" || name.1 == "transcriptSinks"
    case _ => false
  }

  function WithList(c: Config, name: Name, values: seq<string>): Config {
    c.(lists := c.lists[name := values])
  }

  function ListOf(c: Config, name: Name): seq<string> {
    if name in c.lists then c.lists[name] else []
  }

  function Appended(c: Config, name: Name, text: string): Option<Config> {
    var item := TrimQuotes(text);
    if item == "" then None else Some(WithList(c, name, ListOf(c, name) + [item]))
  }

  /** Sets one value; `fits` is the check of that field, if its text fits it. */
  function Applied(fits: (Name, string) -> bool, c: Config, name: Name, text: string): Option<Config> {
    var value := TrimQuotes(text);
    if IsListKey(name) then Some(WithList(c, name, ParseList(value)))
    else if !fits(name, value) then None
    else Some(c.(scalars := c.scalars[name := value]))
  }

  /** The line without blanks at its end and without its comment. */
  function Bare(raw: string): string {
    TrimSpace(Stripped(TrimBlanks(raw)))
  }

  predicate IsItem(line: string) {
    HasPrefix(line, "-")
  }

  function Key(line: string): string {
    TrimSpace(Before(line, ':'))
  }

  function Value(line: string): string {
    TrimSpace(After(line, ':'))
  }

  /** A `key: value` line that continues no list. */
  function Setting(fits: (Name, string) -> bool, s: State, line: string, indent: nat): Option<State> {
    var key, value := Key(line), Value(line);
    if ':' !in line then None
    else if indent == 0 then
      if value != "" || key !in SECTIONS then None else Some(s.(section := key, subsection := "", subIndent := 0))
    else if s.section == "" then None
    else if s.section == "security" && value == "" then
      if key != "runnerGroup" then None else Some(s.(subsection := key, subIndent := indent))
    else if s.section == "security" && (s.subsection == "" || indent <= s.subIndent) then None
    else
      var name := (if s.section == "security" then s.section + "." + s.subsection else s.section, key);
      if name == ("pool", "logDir") then Some(s.(config := s.config.(scalars := s.config.scalars[name := TrimQuotes(value)])))
      else if value == "" && IsListKey(name) then Some(s.(config := WithList(s.config, name, []), pending := Some(Pending(name, indent))))
      else
        var c := Applied(fits, s.config, name, value);
        if c.None? then None else Some(s.(config := c.value))
  }

  function Step(fits: (Name, string) -> bool, s: State, raw: string): Option<State> {
    var line, indent := Bare(raw), Indent(TrimBlanks(raw));
    if line == "" then Some(s)
    else if s.pending.Some? && indent > s.pending.value.indent && IsItem(line) then
      var item := TrimSpace(line[1..]);
      var c := if item == "" then None else Appended(s.config, s.pending.value.name, item);
      if c.None? then None else Some(s.(config := c.value))
    else Setting(fits, s.(pending := None), line, indent)
  }

  /** Any step from line to line, until one fails. */
  function InTurn<S>(step: (S, string) -> Option<S>, s: S, lines: seq<string>): Option<S>
    decreases |lines|
  {
    if lines == [] then Some(s)
    else
      var next := step(s, lines[0]);
      if next.None? then None else InTurn(step, next.value, lines[1..])
  }

  function LoadLines(fits: (Name, string) -> bool, s: State, lines: seq<string>): Option<State> {
    InTurn((t: State, line: string) => Step(fits, t, line), s, lines)
  }

  /** The loop over the lines of a file. */
  method Load(fits: (Name, string) -> bool, defaults: Config, lines: seq<string>) returns (r: Option<Config>)
    ensures var end := LoadLines(fits, State("", "", 0, None, defaults), lines);
            r == if end.Some? then Some(end.value.config) else None
  {
    var section, subsection, subIndent, pending, config := "", "", 0, None, defaults;
    ghost var start := State("", "", 0, None, defaults);
    for i := 0 to |lines|
      invariant LoadLines(fits, start, lines) == LoadLines(fits, State(section, subsection, subIndent, pending, config), lines[i..])
    {
      assert lines[i..][1..] == lines[i + 1..];
      var raw := TrimBlanks(lines[i]);
      var stripped := StripComment(raw);
      var line := TrimSpace(stripped);
      if line == "" { continue; }
      var indent := Indent(raw);
      if pending.Some? {
        if indent > pending.value.indent && HasPrefix(line, "-") {
          var item := TrimSpace(line[1..]);
          if item == "" { return None; }
          var appended := Appended(config, pending.value.name, item);
          if appended.None? { return None; }
          config := appended.value;
          continue;
        }
        pending := None;
      }
      var next := Setting(fits, State(section, subsection, subIndent, pending, config), line, indent);
      if next.None? { return None; }
      section, subsection, subIndent := next.value.section, next.value.subsection, next.value.subIndent;
      pending, config := next.value.pending, next.value.config;
    }
    assert lines[|lines|..] == [];
    r := Some(config);
  }

  // ------------------------------------------------------------ generated lines

  /** An indented line: blanks, a plain lead, and a literal. */
  function Indented(blanks: nat, lead: string, printable: char -> bool, s: string): string {
    seq(blanks, _ => ' ') + lead + Quote(printable, s)
  }

  function ItemLine(printable: char -> bool, path: string): string {
    Indented(4, "- ", printable, path)
  }

  function GroupLine(printable: char -> bool, name: string): string {
    Indented(2, "group: ", printable, name)
  }

  predicate Plain(s: string) {
    '\'' !in s && '"' !in s && '#' !in s
  }

  lemma {:induction false} StripPlain(a: string, rest: string)
    requires Plain(a)
    ensures Stripped(a + rest) == a + Stripped(rest)
  {
    if a == "" {
      assert a + rest == rest;
    } else {
      StripPlain(a[1..], rest);
      assert (a + rest)[1..] == a[1..] + rest && a == [a[0]] + a[1..];
    }
  }

  lemma {:induction false} StripInside(b: string, rest: string)
    requires '"' !in b
    ensures Strip(b + rest, Quotes(false, true)) == b + Strip(rest, Quotes(false, true))
  {
    if b == "" {
      assert b + rest == rest;
    } else {
      StripInside(b[1..], rest);
      assert (b + rest)[1..] == b[1..] + rest && b == [b[0]] + b[1..];
    }
  }

  /** Without a double quote in the text, no '#' in its literal starts a comment. */
  lemma QuotelessLiteralIsKept(printable: char -> bool, lead: string, s: string)
    requires Printing(printable) && Plain(lead) && '"' !in s
    ensures Stripped(lead + Quote(printable, s)) == lead + Quote(printable, s)
  {
    var body := EscapeAll(printable, s);
    LiteralShape(printable, s);
    StripPlain(lead, Quote(printable, s));
    assert Quote(printable, s)[1..] == body + "\"";
    StripInside(body, "\"");
    assert Strip("\"", Quotes(false, true)) == "\"";
  }

  /** What stripping leaves of a text: all of it, or a part before some '#'. */
  lemma {:induction false} StripCuts(s: string, q: Quotes)
    ensures Strip(s, q) == s || exists k | 0 <= k < |s| :: s[k] == '#' && Strip(s, q) == s[..k]
  {
    if s != "" && !(s[0] == '#' && !q.single && !q.double) {
      StripCuts(s[1..], Toggle(q, s[0]));
      if Strip(s[1..], Toggle(q, s[0])) == s[1..] {
        assert Strip(s, q) == s;
      } else {
        var k :| 0 <= k < |s[1..]| && s[1..][k] == '#' && Strip(s[1..], Toggle(q, s[0])) == s[1..][..k];
        assert s[k + 1] == '#' && s[..k + 1] == [s[0]] + s[1..][..k];
      }
    } else if s != "" {
      assert s[0] == '#' && s[..0] == "";
    }
  }

  lemma {:induction false} TrimRightIsPrefix(s: string)
    ensures TrimRight(s) <= s
    ensures TrimRight(s) == "" || !IsSpace(Last(TrimRight(s)))
    ensures s != "" && !IsSpace(s[0]) ==> TrimRight(s) != "" && TrimRight(s)[0] == s[0]
  {
    if s != "" && IsSpace(Last(s)) { TrimRightIsPrefix(Front(s)); }
  }

  lemma TrimmedText(t: string)
    requires t != "" && !IsSpace(t[0])
    ensures TrimLeft(t) == t && TrimSpace(t) == TrimRight(t)
    ensures !IsSpace(Last(t)) ==> TrimSpace(t) == t
  {
  }

  /** A whole literal is read as its text. */
  lemma LiteralValue(printable: char -> bool, s: string)
    requires Printing(printable)
    ensures TrimQuotes(Quote(printable, s)) == s && TrimSpace(Quote(printable, s)) == Quote(printable, s)
  {
    QuoteUnquotes(printable, s);
    TrimmedText(Quote(printable, s));
  }

  /** A literal cut before a '#' inside it is read as something else. */
  lemma CutLiteralValue(printable: char -> bool, s: string, cut: string, after: string)
    requires Printing(printable) && Quote(printable, s) == "\"" + cut + "#" + after
    ensures var t := TrimRight("\"" + cut); t != "" && t[0] == '"' && TrimSpace(t) == t && TrimQuotes(t) != s
  {
    var t := TrimRight("\"" + cut);
    TrimRightIsPrefix("\"" + cut);
    TrimmedText(t);
    var more := RestOfBody(EscapeAll(printable, s), cut, after);
    if |t| >= 2 && Last(t) == '"' {
      CutQuotesFail(printable, s, cut, more, t);
    }
    FewerHashes(printable, s, cut, more, t);
  }

  lemma RestOfBody(body: string, cut: string, after: string) returns (more: string)
    requires "\"" + body + "\"" == "\"" + cut + "#" + after
    ensures body == cut + more && '#' in more
  {
    var q, n := "\"" + body + "\"", |body|;
    assert q[1..n + 1] == body && q[n + 1] == '"' && q[|cut| + 1] == '#';
    more := q[|cut| + 1..n + 1];
    assert more[0] == '#';
    assert q[1..|cut| + 1] == cut;
    assert q[1..n + 1] == q[1..|cut| + 1] + more;
  }

  lemma CutQuotesFail(printable: char -> bool, s: string, cut: string, more: string, t: string)
    requires Printing(printable) && EscapeAll(printable, s) == cut + more
    requires t <= "\"" + cut && |t| >= 2 && t[0] == '"' && Last(t) == '"'
    ensures Unquote(t).None?
  {
    var left := CutAround(cut, more, t);
    CutLiteralFails(printable, s, t[1..|t| - 1], left);
  }

  lemma CutAround(cut: string, more: string, t: string) returns (left: string)
    requires t <= "\"" + cut && |t| >= 2 && Last(t) == '"'
    ensures cut + more == t[1..|t| - 1] + "\"" + left
  {
    var inner, quoted := t[1..|t| - 1], "\"" + cut;
    assert quoted[1..] == cut && quoted[..|t|] == t;
    assert cut[..|inner| + 1] == quoted[1..|t|] == inner + "\"";
    left := cut[|inner| + 1..] + more;
    assert cut == cut[..|inner| + 1] + cut[|inner| + 1..];
  }

  lemma FewerHashes(printable: char -> bool, s: string, cut: string, more: string, t: string)
    requires Printing(printable) && EscapeAll(printable, s) == cut + more && '#' in more && t <= "\"" + cut
    ensures t != s
  {
    var quoted := "\"" + cut;
    LiteralKeepsHashes(printable, s);
    HashesOfSum(cut, more);
    HashesOfSum("\"", cut);
    HashesOfSum(t, quoted[|t|..]);
    assert quoted == t + quoted[|t|..];
    assert Hashes("\"") == 0 && Hashes(more) > 0;
  }

  lemma {:induction false} TrimLeftSkips(blanks: nat, s: string)
    requires s != "" && !IsSpace(s[0])
    ensures TrimLeft(seq(blanks, _ => ' ') + s) == s && Indent(seq(blanks, _ => ' ') + s) == blanks
  {
    var all := seq(blanks, _ => ' ') + s;
    if blanks == 0 {
      assert all == s;
    } else {
      TrimLeftSkips(blanks - 1, s);
      assert all[1..] == seq(blanks - 1, _ => ' ') + s;
    }
  }

  /** The value part of a line that a '#' may have cut. */
  ghost predicate ReadAs(printable: char -> bool, s: string, t: string, whole: bool) {
    && t != "" && t[0] == '"' && TrimSpace(t) == t
    && (TrimQuotes(t) == s <==> whole)
  }

  /** The bare text of such a line is its lead and a value that is read as the
      original text exactly if the comment stripper leaves the line whole. */
  lemma BareLine(blanks: nat, lead: string, printable: char -> bool, s: string) returns (t: string)
    requires Printing(printable) && Plain(lead) && lead != "" && !IsSpace(lead[0]) && lead[0] != ' '
    ensures var raw := Indented(blanks, lead, printable, s);
            && Bare(raw) == lead + t && Indent(TrimBlanks(raw)) == blanks
            && ReadAs(printable, s, t, Stripped(raw) == raw)
  {
    var q := Quote(printable, s);
    BareOf(blanks, lead, q);
    StripCuts(q, Quotes(false, false));
    if Stripped(q) == q {
      t := q;
      LiteralValue(printable, s);
    } else {
      var k :| 0 <= k < |q| && q[k] == '#' && Stripped(q) == q[..k];
      t := TrimRight(q[..k]);
      CutAt(printable, s, k);
    }
    TrimmedText(q);
  }

  lemma BareOf(blanks: nat, lead: string, q: string)
    requires lead != "" && Plain(lead) && !IsSpace(lead[0]) && lead[0] != ' '
    requires q != "" && q[0] == '"' && Last(q) == '"'
    ensures var raw := seq(blanks, _ => ' ') + lead + q;
            && Bare(raw) == lead + TrimRight(Stripped(q))
            && Indent(TrimBlanks(raw)) == blanks
            && (Stripped(raw) == raw <==> Stripped(q) == q)
  {
    var head := seq(blanks, _ => ' ') + lead;
    var raw := head + q;
    assert Last(raw) == '"' && TrimBlanks(raw) == raw;
    StripPlain(head, q);
    assert Stripped(q) != "" && Stripped(q)[0] == '"';
    BareText(blanks, lead, Stripped(q));
    TrimLeftSkips(blanks, lead + q);
    assert raw == seq(blanks, _ => ' ') + (lead + q);
    SameRest(head, Stripped(q), q);
  }

  lemma SameRest(head: string, a: string, b: string)
    ensures head + a == head + b <==> a == b
  {
    assert (head + a)[|head|..] == a && (head + b)[|head|..] == b;
  }

  lemma BareText(blanks: nat, lead: string, s: string)
    requires lead != "" && !IsSpace(lead[0]) && s != "" && !IsSpace(s[0])
    ensures TrimSpace(seq(blanks, _ => ' ') + lead + s) == lead + TrimRight(s)
  {
    assert seq(blanks, _ => ' ') + lead + s == seq(blanks, _ => ' ') + (lead + s);
    TrimLeftSkips(blanks, lead + s);
    TrimRightKeepsLead(lead, s);
  }

  lemma CutAt(printable: char -> bool, s: string, k: nat)
    requires Printing(printable) && k < |Quote(printable, s)| && Quote(printable, s)[k] == '#'
    ensures k > 0 && Quote(printable, s)[..k] == "\"" + Quote(printable, s)[1..k]
    ensures ReadAs(printable, s, TrimRight(Quote(printable, s)[..k]), false)
  {
    var q := Quote(printable, s);
    assert q[0] == '"';
    assert q[..k] == "\"" + q[1..k];
    assert q == "\"" + q[1..k] + "#" + q[k + 1..];
    CutLiteralValue(printable, s, q[1..k], q[k + 1..]);
  }

  lemma {:induction false} TrimRightKeepsLead(lead: string, s: string)
    requires s != "" && !IsSpace(s[0])
    ensures TrimRight(lead + s) == lead + TrimRight(s)
  {
    if IsSpace(Last(s)) {
      assert Front(lead + s) == lead + Front(s) && Last(lead + s) == Last(s);
      TrimRightKeepsLead(lead, Front(s));
    }
  }

  // ------------------------------------------------------------- reading back

  const SCRIPTS: Name := ("image", "customInstallScripts")
  const GROUP: Name := ("runner", "group")

  /** An item line appends exactly its path, if and only if the comment
      stripper leaves the line whole. */
  lemma ItemIsReadBack(fits: (Name, string) -> bool, printable: char -> bool, s: State, path: string)
    requires Printing(printable) && path != "" && s.pending.Some? && s.pending.value.indent < 4
    ensures Step(fits, s, ItemLine(printable, path))
              == Some(s.(config := WithList(s.config, s.pending.value.name, ListOf(s.config, s.pending.value.name) + [path])))
            <==> Stripped(ItemLine(printable, path)) == ItemLine(printable, path)
  {
    var raw, name := ItemLine(printable, path), s.pending.value.name;
    var t := BareLine(4, "- ", printable, path);
    SpacedValue(t);
    ItemStep(fits, s, raw, t);
    AppendedValue(s.config, name, t, path);
  }

  lemma SpacedValue(t: string)
    requires t != "" && !IsSpace(t[0]) && TrimSpace(t) == t
    ensures TrimSpace(" " + t) == t && ("- " + t)[1..] == " " + t && IsItem("- " + t)
  {
    assert (" " + t)[1..] == t;
    assert TrimLeft(" " + t) == TrimLeft(t) == t;
  }

  lemma ItemStep(fits: (Name, string) -> bool, s: State, raw: string, t: string)
    requires t != "" && s.pending.Some? && Indent(TrimBlanks(raw)) > s.pending.value.indent
    requires Bare(raw) == "- " + t && TrimSpace(("- " + t)[1..]) == t && IsItem("- " + t)
    ensures Step(fits, s, raw)
            == var c := Appended(s.config, s.pending.value.name, t); if c.None? then None else Some(s.(config := c.value))
  {
    assert |"- " + t| > 0;
  }

  lemma AppendedValue(c: Config, name: Name, t: string, path: string)
    requires path != ""
    ensures Appended(c, name, t) == Some(WithList(c, name, ListOf(c, name) + [path])) <==> TrimQuotes(t) == path
  {
    var values, item := ListOf(c, name), TrimQuotes(t);
    assert (values + [item])[|values|] == item && (values + [path])[|values|] == path;
    assert WithList(c, name, values + [item]).lists[name] == values + [item];
    assert WithList(c, name, values + [path]).lists[name] == values + [path];
  }

  lemma BeforeColon(value: string)
    ensures Before("group: " + value, ':') == "group" && After("group: " + value, ':') == " " + value
  {
    var line := "group: " + value;
    assert line[1..] == "roup: " + value && line[2..] == "oup: " + value && line[3..] == "up: " + value;
    assert line[4..] == "p: " + value && line[5..] == ": " + value && line[6..] == " " + value;
    assert After(line[5..], ':') == line[6..] && Before(line[5..], ':') == "";
    assert After(line[4..], ':') == line[6..] && Before(line[4..], ':') == "p";
    assert After(line[3..], ':') == line[6..] && Before(line[3..], ':') == "up";
    assert After(line[2..], ':') == line[6..] && Before(line[2..], ':') == "oup";
    assert After(line[1..], ':') == line[6..] && Before(line[1..], ':') == "roup";
  }

  /** The group line sets exactly its name, if and only if the comment stripper
      leaves the line whole. */
  lemma GroupIsReadBack(fits: (Name, string) -> bool, printable: char -> bool, s: State, name: string)
    requires Printing(printable) && s.section == "runner" && forall v :: fits(GROUP, v)
    ensures Step(fits, s, GroupLine(printable, name))
              == Some(s.(pending := None, config := s.config.(scalars := s.config.scalars[GROUP := name])))
            <==> Stripped(GroupLine(printable, name)) == GroupLine(printable, name)
  {
    var raw := GroupLine(printable, name);
    var t := BareLine(2, "group: ", printable, name);
    GroupKey(t);
    ScalarStep(fits, s, raw, "group: " + t, GROUP, t);
    var scalars := s.config.scalars;
    assert scalars[GROUP := TrimQuotes(t)][GROUP] == TrimQuotes(t) && scalars[GROUP := name][GROUP] == name;
  }

  lemma GroupKey(t: string)
    requires t != "" && !IsSpace(t[0]) && TrimSpace(t) == t
    ensures Key("group: " + t) == "group" && Value("group: " + t) == t && ':' in "group: " + t && !IsItem("group: " + t)
  {
    BeforeColon(t);
    SpacedValue(t);
    TrimmedText("group");
    assert ("group: " + t)[5] == ':' && ("group: " + t)[0] == 'g';
  }

  lemma ScalarStep(fits: (Name, string) -> bool, s: State, raw: string, line: string, name: Name, value: string)
    requires Bare(raw) == line && line != "" && !IsItem(line) && Indent(TrimBlanks(raw)) > 0
    requires ':' in line && Key(line) == name.1 && Value(line) == value != ""
    requires s.section == name.0 && name.0 != "" && name.0 != "security" && name != ("pool", "logDir") && !IsListKey(name)
    requires fits(name, TrimQuotes(value))
    ensures Step(fits, s, raw)
            == Some(s.(pending := None, config := s.config.(scalars := s.config.scalars[name := TrimQuotes(value)])))
  {
  }

  /** Every name and every path without a double quote keeps its line whole. */
  lemma QuotelessLinesAreKept(printable: char -> bool, s: string)
    requires Printing(printable) && '"' !in s
    ensures Stripped(ItemLine(printable, s)) == ItemLine(printable, s)
    ensures Stripped(GroupLine(printable, s)) == GroupLine(printable, s)
  {
    QuotelessLiteralIsKept(printable, seq(4, _ => ' ') + "- ", s);
    QuotelessLiteralIsKept(printable, seq(2, _ => ' ') + "group: ", s);
  }

  /** With one, a later '#' starts a comment inside the literal. */
  lemma QuoteThenHashIsCut(printable: char -> bool)
    requires Printing(printable)
    ensures Stripped(ItemLine(printable, "\"#")) != ItemLine(printable, "\"#")
  {
    var q := Quote(printable, "\"#");
    var head := seq(4, _ => ' ') + "- ";
    assert "\"#"[1..] == "#" && "#"[1..] == "";
    assert EscapeAll(printable, "#") == "#";
    assert q == "\"\\\"#\"";
    StripPlain(head, q);
    assert q[1..] == "\\\"#\"" && q[2..] == "\"#\"" && q[3..] == "#\"";
    assert Strip(q[3..], Quotes(false, false)) == "";
    assert q[2..][1..] == q[3..] && q[1..][1..] == q[2..];
    assert Strip(q[2..], Quotes(false, true)) == "\"" + Strip(q[3..], Quotes(false, false));
    assert Strip(q[1..], Quotes(false, true)) == "\\" + Strip(q[2..], Quotes(false, true));
    assert |Stripped(q)| < |q|;
  }

  // --------------------------------------------------------- the whole text

  lemma {:induction false} InTurnOfSum<S>(step: (S, string) -> Option<S>, s: S, a: seq<string>, b: seq<string>)
    ensures InTurn(step, s, a + b)
            == var mid := InTurn(step, s, a); if mid.None? then None else InTurn(step, mid.value, b)
    decreases |a|
  {
    if a == [] {
      assert a + b == b;
    } else {
      assert (a + b)[1..] == a[1..] + b;
      var next := step(s, a[0]);
      if next.Some? { InTurnOfSum(step, next.value, a[1..], b); }
    }
  }

  lemma LoadInTurn(fits: (Name, string) -> bool, s: State, a: seq<string>, b: seq<string>)
    ensures LoadLines(fits, s, a + b)
            == var mid := LoadLines(fits, s, a); if mid.None? then None else LoadLines(fits, mid.value, b)
  {
    InTurnOfSum((t: State, line: string) => Step(fits, t, line), s, a, b);
  }

  function ItemLines(printable: char -> bool, paths: seq<string>): seq<string> {
    seq(|paths|, i requires 0 <= i < |paths| => ItemLine(printable, paths[i]))
  }

  ghost predicate Kept(printable: char -> bool, paths: seq<string>) {
    forall p | p in paths :: p != "" && Stripped(ItemLine(printable, p)) == ItemLine(printable, p)
  }

  function WithItems(s: State, paths: seq<string>): State
    requires s.pending.Some?
  {
    if paths == [] then s
    else s.(config := WithList(s.config, s.pending.value.name, ListOf(s.config, s.pending.value.name) + paths))
  }

  lemma OneMoreItem(s: State, paths: seq<string>, i: nat)
    requires s.pending.Some? && i < |paths|
    ensures WithItems(WithItems(s, paths[..i]), [paths[i]]) == WithItems(s, paths[..i + 1])
  {
    var values := ListOf(s.config, s.pending.value.name);
    assert paths[..i + 1] == paths[..i] + [paths[i]];
    if i == 0 {
      assert paths[..i] == [] && paths[..i + 1] == [paths[i]];
    } else {
      assert values + paths[..i] + [paths[i]] == values + paths[..i + 1];
      var m, name := s.config.lists, s.pending.value.name;
      assert m[name := values + paths[..i]][name := values + paths[..i + 1]] == m[name := values + paths[..i + 1]];
    }
  }

  lemma FirstInTurn<S>(step: (S, string) -> Option<S>, s: S, lines: seq<string>, next: S)
    requires lines != [] && step(s, lines[0]) == Some(next)
    ensures InTurn(step, s, lines) == InTurn(step, next, lines[1..])
  {
  }

  /** A run through known states ends in the last of them. */
  lemma {:induction false} InTurnAlong<S(!new)>(step: (S, string) -> Option<S>, states: seq<S>, lines: seq<string>)
    requires |states| == |lines| + 1
    requires forall i | 0 <= i < |lines| :: step(states[i], lines[i]) == Some(states[i + 1])
    ensures InTurn(step, states[0], lines) == Some(states[|lines|])
    decreases |lines|
  {
    if lines != [] {
      FirstInTurn(step, states[0], lines, states[1]);
      InTurnAlong(step, states[1..], lines[1..]);
    }
  }

  lemma OneItemIsReadBack(fits: (Name, string) -> bool, printable: char -> bool, s: State, paths: seq<string>, i: nat)
    requires Printing(printable) && Kept(printable, paths) && s.pending.Some? && s.pending.value.indent < 4 && i < |paths|
    ensures Step(fits, WithItems(s, paths[..i]), ItemLine(printable, paths[i])) == Some(WithItems(s, paths[..i + 1]))
  {
    assert paths[i] in paths;
    ItemIsReadBack(fits, printable, WithItems(s, paths[..i]), paths[i]);
    OneMoreItem(s, paths, i);
  }

  lemma ItemsAreReadBack(fits: (Name, string) -> bool, printable: char -> bool, s: State, paths: seq<string>)
    requires Printing(printable) && Kept(printable, paths) && s.pending.Some? && s.pending.value.indent < 4
    ensures LoadLines(fits, s, ItemLines(printable, paths)) == Some(WithItems(s, paths))
  {
    var step := (t: State, line: string) => Step(fits, t, line);
    var lines := ItemLines(printable, paths);
    var states := seq(|paths| + 1, i requires 0 <= i <= |paths| => WithItems(s, paths[..i]));
    forall i | 0 <= i < |lines| ensures step(states[i], lines[i]) == Some(states[i + 1]) {
      OneItemIsReadBack(fits, printable, s, paths, i);
    }
    InTurnAlong(step, states, lines);
    assert paths[..|paths|] == paths && paths[..0] == [];
  }

  /** A line that continues no list and sets neither of the two names. */
  predicate Quiet(raw: string) {
    !IsItem(Bare(raw)) && Key(Bare(raw)) != "customInstallScripts" && Key(Bare(raw)) != "group"
  }

  lemma QuietKeeps(fits: (Name, string) -> bool, s: State, raw: string)
    requires Quiet(raw) && Step(fits, s, raw).Some?
    ensures var t := Step(fits, s, raw).value;
            ListOf(t.config, SCRIPTS) == ListOf(s.config, SCRIPTS)
            && (GROUP in t.config.scalars <==> GROUP in s.config.scalars)
            && (GROUP in s.config.scalars ==> t.config.scalars[GROUP] == s.config.scalars[GROUP])
  {
  }

  lemma {:induction false} QuietLinesKeep(fits: (Name, string) -> bool, s: State, lines: seq<string>)
    requires (forall l | l in lines :: Quiet(l)) && LoadLines(fits, s, lines).Some?
    ensures var t := LoadLines(fits, s, lines).value;
            ListOf(t.config, SCRIPTS) == ListOf(s.config, SCRIPTS)
            && (GROUP in s.config.scalars ==> GROUP in t.config.scalars && t.config.scalars[GROUP] == s.config.scalars[GROUP])
    decreases |lines|
  {
    if lines != [] {
      assert lines[0] in lines && forall l | l in lines[1..] :: l in lines;
      QuietKeeps(fits, s, lines[0]);
      QuietLinesKeep(fits, Step(fits, s, lines[0]).value, lines[1..]);
    }
  }

  /** What stands in place of an empty list of scripts. */
  const EXAMPLE_DIRECTORY := "- examples/custom-install/"
  const EXAMPLE_SCRIPT := "install-extra-apt-tools.sh"

  function NoScripts(): string {
    seq(4, _ => ' ') + "# " + (EXAMPLE_DIRECTORY + EXAMPLE_SCRIPT)
  }

  function ScriptLines(printable: char -> bool, paths: seq<string>): seq<string> {
    if paths == [] then [NoScripts()] else ItemLines(printable, paths)
  }

  lemma CommentIsSkipped(fits: (Name, string) -> bool, s: State, blanks: nat, text: string)
    requires text != "" && !IsSpace(Last(text))
    ensures Step(fits, s, seq(blanks, _ => ' ') + "# " + text) == Some(s) && Bare(seq(blanks, _ => ' ') + "# " + text) == ""
  {
    var head, rest := seq(blanks, _ => ' '), "# " + text;
    var raw := head + "# " + text;
    assert raw == head + rest && Last(raw) == Last(text) && TrimBlanks(raw) == raw;
    StripPlain(head, rest);
    assert Stripped(rest) == "" && head + "" == head;
    OnlyBlanks(blanks);
  }

  lemma {:induction false} OnlyBlanks(n: nat)
    ensures TrimLeft(seq(n, _ => ' ')) == ""
  {
    if n > 0 {
      assert seq(n, _ => ' ')[1..] == seq(n - 1, _ => ' ');
      OnlyBlanks(n - 1);
    }
  }

  lemma ScriptsAreReadBack(fits: (Name, string) -> bool, printable: char -> bool, s: State, paths: seq<string>)
    requires Printing(printable) && Kept(printable, paths) && s.pending.Some? && s.pending.value.indent < 4
    ensures LoadLines(fits, s, ScriptLines(printable, paths)) == Some(WithItems(s, paths))
  {
    if paths == [] {
      assert Last(EXAMPLE_DIRECTORY + EXAMPLE_SCRIPT) == 'h';
      CommentIsSkipped(fits, s, 4, EXAMPLE_DIRECTORY + EXAMPLE_SCRIPT);
      FirstInTurn((t: State, line: string) => Step(fits, t, line), s, [NoScripts()], s);
      assert [NoScripts()][1..] == [];
    } else {
      ItemsAreReadBack(fits, printable, s, paths);
    }
  }

  function Heading(blanks: nat, word: string): string {
    seq(blanks, _ => ' ') + word + ":"
  }

  /** The generated text around its two quoted fields. */
  function Generated(printable: char -> bool, before: seq<string>, paths: seq<string>, middle: seq<string>,
                     name: string, after: seq<string>): seq<string> {
    before + ([Heading(2, "customInstallScripts")] + ScriptLines(printable, paths)) + middle + ([Heading(0, "runner"), GroupLine(printable, name)] + after)
  }

  lemma {:induction false} ColonAtEnd(s: string)
    requires ':' !in s
    ensures Before(s + ":", ':') == s && After(s + ":", ':') == ""
  {
    if s != "" {
      ColonAtEnd(s[1..]);
      assert (s + ":")[1..] == s[1..] + ":";
    } else {
      assert s + ":" == ":";
    }
  }

  predicate Word(s: string) {
    s != "" && ':' !in s && Plain(s) && !IsSpace(s[0]) && !IsSpace(Last(s)) && s[0] != '-' && s[0] != ' '
  }

  lemma HeadingText(blanks: nat, word: string)
    requires Word(word)
    ensures var raw, line := Heading(blanks, word), word + ":";
            && Bare(raw) == line && Indent(TrimBlanks(raw)) == blanks
            && Key(line) == word && Value(line) == "" && ':' in line && !IsItem(line)
  {
    var raw, line := Heading(blanks, word), word + ":";
    assert Last(raw) == ':' && TrimBlanks(raw) == raw;
    assert Plain(raw);
    StripPlain(raw, "");
    assert raw + "" == raw && Stripped("") == "" && Stripped(raw) == raw;
    assert raw == seq(blanks, _ => ' ') + line;
    TrimLeftSkips(blanks, line);
    assert Last(line) == ':' && TrimRight(line) == line;
    ColonAtEnd(word);
    TrimmedText(word);
  }

  lemma ScriptsHeading(fits: (Name, string) -> bool, s: State)
    requires s.section == "image"
    ensures Step(fits, s, Heading(2, "customInstallScripts"))
            == Some(s.(config := WithList(s.config, SCRIPTS, []), pending := Some(Pending(SCRIPTS, 2))))
  {
    HeadingText(2, "customInstallScripts");
    ListStep(fits, s, Heading(2, "customInstallScripts"), "customInstallScripts" + ":", SCRIPTS);
  }

  lemma ListStep(fits: (Name, string) -> bool, s: State, raw: string, line: string, name: Name)
    requires Bare(raw) == line && line != "" && !IsItem(line) && Indent(TrimBlanks(raw)) > 0
    requires ':' in line && Key(line) == name.1 && Value(line) == ""
    requires s.section == name.0 && name.0 != "" && name.0 != "security" && name != ("pool", "logDir") && IsListKey(name)
    ensures Step(fits, s, raw)
            == Some(s.(config := WithList(s.config, name, []), pending := Some(Pending(name, Indent(TrimBlanks(raw))))))
  {
  }

  lemma SectionStep(fits: (Name, string) -> bool, s: State, raw: string, line: string, section: string)
    requires Bare(raw) == line && line != "" && !IsItem(line) && Indent(TrimBlanks(raw)) == 0
    requires ':' in line && Key(line) == section && Value(line) == "" && section in SECTIONS
    ensures Step(fits, s, raw) == Some(s.(section := section, subsection := "", subIndent := 0, pending := None))
  {
  }

  lemma RunnerHeading(fits: (Name, string) -> bool, s: State)
    ensures Step(fits, s, Heading(0, "runner")) == Some(s.(section := "runner", subsection := "", subIndent := 0, pending := None))
  {
    HeadingText(0, "runner");
    SectionStep(fits, s, Heading(0, "runner"), "runner" + ":", "runner");
  }

  /** The state after the block of script paths. */
  function AfterBlock(s: State, paths: seq<string>): State {
    WithItems(s.(config := WithList(s.config, SCRIPTS, []), pending := Some(Pending(SCRIPTS, 2))), paths)
  }

  /** The state after the heading of the runner section and the group line. */
  function AfterGroup(s: State, name: string): State {
    State("runner", "", 0, None, s.config.(scalars := s.config.scalars[GROUP := name]))
  }

  /** The other lines of the generated text load where they stand, and neither
      continue a list nor set one of the two quoted fields. */
  ghost predicate OthersLoad(fits: (Name, string) -> bool, start: State, before: seq<string>, paths: seq<string>,
                             middle: seq<string>, name: string, after: seq<string>) {
    && (forall l | l in middle :: Quiet(l)) && (forall l | l in after :: Quiet(l))
    && var s1 := LoadLines(fits, start, before);
    && s1.Some? && s1.value.section == "image"
    && var s3 := LoadLines(fits, AfterBlock(s1.value, paths), middle);
    && s3.Some? && LoadLines(fits, AfterGroup(s3.value, name), after).Some?
  }

  ghost predicate ReadBack(end: Option<State>, paths: seq<string>, name: string) {
    && end.Some?
    && GROUP in end.value.config.scalars && end.value.config.scalars[GROUP] == name
    && ListOf(end.value.config, SCRIPTS) == paths
  }

  /** The generated text loads if its other lines do, and gives back exactly the
      group name and exactly the script paths, in order, if no literal is cut. */
  lemma GeneratedTextIsReadBack(fits: (Name, string) -> bool, printable: char -> bool, start: State, before: seq<string>,
                                paths: seq<string>, middle: seq<string>, name: string, after: seq<string>)
    requires Printing(printable) && forall v: string :: fits(GROUP, v)
    requires OthersLoad(fits, start, before, paths, middle, name, after)
    requires Kept(printable, paths) && Stripped(GroupLine(printable, name)) == GroupLine(printable, name)
    ensures ReadBack(LoadLines(fits, start, Generated(printable, before, paths, middle, name, after)), paths, name)
  {
    var block, tail := [Heading(2, "customInstallScripts")] + ScriptLines(printable, paths), [Heading(0, "runner"), GroupLine(printable, name)] + after;
    var s1 := LoadLines(fits, start, before).value;
    LoadInTurn(fits, start, before + block + middle, tail);
    LoadInTurn(fits, start, before + block, middle);
    LoadInTurn(fits, start, before, block);
    BlockIsReadBack(fits, printable, s1, paths);
    var s3 := LoadLines(fits, AfterBlock(s1, paths), middle).value;
    QuietLinesKeep(fits, AfterBlock(s1, paths), middle);
    TailIsReadBack(fits, printable, s3, name, after);
    QuietLinesKeep(fits, AfterGroup(s3, name), after);
  }

  lemma BlockIsReadBack(fits: (Name, string) -> bool, printable: char -> bool, s: State, paths: seq<string>)
    requires Printing(printable) && Kept(printable, paths) && s.section == "image"
    ensures LoadLines(fits, s, [Heading(2, "customInstallScripts")] + ScriptLines(printable, paths)) == Some(AfterBlock(s, paths))
    ensures ListOf(AfterBlock(s, paths).config, SCRIPTS) == paths
  {
    ScriptsHeading(fits, s);
    var headed := s.(config := WithList(s.config, SCRIPTS, []), pending := Some(Pending(SCRIPTS, 2)));
    var lines := [Heading(2, "customInstallScripts")] + ScriptLines(printable, paths);
    ScriptsAreReadBack(fits, printable, headed, paths);
    FirstInTurn((u: State, line: string) => Step(fits, u, line), s, lines, headed);
    assert lines[1..] == ScriptLines(printable, paths);
    assert [] + paths == paths;
  }

  lemma TailIsReadBack(fits: (Name, string) -> bool, printable: char -> bool, s: State, name: string, after: seq<string>)
    requires Printing(printable) && forall v: string :: fits(GROUP, v)
    requires Stripped(GroupLine(printable, name)) == GroupLine(printable, name)
    ensures LoadLines(fits, s, [Heading(0, "runner"), GroupLine(printable, name)] + after) == LoadLines(fits, AfterGroup(s, name), after)
  {
    RunnerHeading(fits, s);
    var headed := s.(section := "runner", subsection := "", subIndent := 0, pending := None);
    GroupIsReadBack(fits, printable, headed, name);
    TwoLines((u: State, line: string) => Step(fits, u, line), s, headed, AfterGroup(s, name),
             Heading(0, "runner"), GroupLine(printable, name), after);
  }

  lemma TwoLines<S>(step: (S, string) -> Option<S>, s: S, t: S, u: S, first: string, second: string, after: seq<string>)
    requires step(s, first) == Some(t) && step(t, second) == Some(u)
    ensures InTurn(step, s, [first, second] + after) == InTurn(step, u, after)
  {
    var lines := [first, second] + after;
    assert lines[1..] == [second] + after && lines[1..][1..] == after;
  }

  /** For every group name and every list of non-empty script paths without
      double quotes, '#', colons, backslashes and quotes of the other kind
      included, loading gives back exactly that name and that list. */
  lemma QuotelessTextIsReadBack(fits: (Name, string) -> bool, printable: char -> bool, start: State, before: seq<string>,
                                paths: seq<string>, middle: seq<string>, name: string, after: seq<string>)
    requires Printing(printable) && forall v: string :: fits(GROUP, v)
    requires OthersLoad(fits, start, before, paths, middle, name, after)
    requires '"' !in name && forall p | p in paths :: p != "" && '"' !in p
    ensures ReadBack(LoadLines(fits, start, Generated(printable, before, paths, middle, name, after)), paths, name)
  {
    QuotelessLinesAreKept(printable, name);
    forall p | p in paths ensures Stripped(ItemLine(printable, p)) == ItemLine(printable, p) {
      QuotelessLinesAreKept(printable, p);
    }
    GeneratedTextIsReadBack(fits, printable, start, before, paths, middle, name, after);
  }

  // ------------------------------------------------------------- lines of a text

  function DropReturn(line: string): string {
    if line != "" && Last(line) == '\r' then Front(line) else line
  }

  /** The lines that the scanner yields. */
  function ScanLines(text: string): seq<string> {
    var parts := Split(text, '\n');
    var whole := Front(parts) + if Last(parts) == "" then [] else [Last(parts)];
    seq(|whole|, i requires 0 <= i < |whole| => DropReturn(whole[i]))
  }

  predicate OneLine(line: string) {
    '\n' !in line && DropReturn(line) == line
  }

  /** Lines written one below the other are scanned as those lines. */
  lemma LinesSurvive(lines: seq<string>)
    requires forall l | l in lines :: OneLine(l)
    ensures ScanLines(Join(lines + [""], '\n')) == lines
  {
    var parts := lines + [""];
    forall p | p in parts ensures '\n' !in p {
      assert p in lines || p == "";
    }
    SplitOfJoin(parts, '\n');
    assert Front(parts) == lines && Last(parts) == "";
    forall i | 0 <= i < |lines| ensures DropReturn(lines[i]) == lines[i] {
      assert lines[i] in lines;
    }
  }

  /** The quoted fields stay on one line, whatever they hold. */
  lemma QuotedFieldsStayOnLine(printable: char -> bool, s: string)
    requires Printing(printable)
    ensures OneLine(ItemLine(printable, s)) && OneLine(GroupLine(printable, s))
  {
    LiteralShape(printable, s);
    assert Last(Quote(printable, s)) == '"';
    assert Last(ItemLine(printable, s)) == '"' && Last(GroupLine(printable, s)) == '"';
  }
}
