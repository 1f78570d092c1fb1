/** The text that setup writes for Docker containers, line by line, and that the
    loader takes every line of it. */
module ConfigTemplate {
  import opened ConfigText
  import opened GoQuoting
  import opened Splitting
  import opened Text
  import opened Wrappers

  // -------------------------------------------------------------- typed fields

  predicate IsDigits(s: string) {
    s == "" || ('0' <= s[0] <= '9' && IsDigits(s[1..]))
  }

  /** The number of the digits, after `high` in front of them. */
  function Digits(s: string, high: nat): nat
    requires IsDigits(s)
    decreases |s|
  {
    if s == "" then high else Digits(s[1..], 10 * high + (s[0] - '0') as nat)
  }

  /** Decimal 64-bit integers, with or without a sign. */
  predicate IsInt(s: string) {
    var unsigned := if s != "" && (s[0] == '-' || s[0] == '+') then s[1..] else s;
    unsigned != "" && IsDigits(unsigned)
    && Digits(unsigned, 0) <= if s[0] == '-' then 0x8000_0000_0000_0000 else 0x7fff_ffff_ffff_ffff
  }

  predicate IsBool(s: string) {
    (s == "1" || s == "t" || s == "T" || s == "true" || s == "TRUE" || s == "True" || s == "0" || s == "f" || s == "F" || s == "false" || s == "FALSE" || s == "False")
  }

  datatype Kind = AnyText | Integer | Boolean | Float | NoField

  function KindOf(name: Name): Kind {
    var key := name.1;
    match name.0
    case "github" =>
      if key == "appId" then Integer
      else if (key == "organization" || key == "privateKeyPath" || key == "apiBaseUrl"
            || key == "webBaseUrl") then AnyText else NoField
    case "image" =>
      if key == "prebuiltAcceptance" then Boolean
      else if (key == "distribution" || key == "sourceImage" || key == "sourceType" || key == "sourcePlatform"
            || key == "outputImage" || key == "prebuiltReference" || key == "prebuiltDigest"
            || key == "prebuiltCatalogReference" || key == "prebuiltEvidenceRef" || key == "upstreamDir"
            || key == "upstreamLock" || key == "runnerVersion" || key == "updateFrequency" || key == "updateTime"
            || key == "hostTrustMode") then AnyText else NoField
    case "pool" =>
      if (key == "instances" || key == "replacementRetryInitialSeconds" || key == "replacementRetryMaxSeconds"
            || key == "replacementRetryJitterPercent") then Integer
      else if key == "replacementRetryMultiplier" then Float
      else if (key == "namePrefix" || key == "vmPrefix") then AnyText else NoField
    case "logging" =>
      if (key == "compressBackups" || key == "retentionEnabled") then Boolean
      else if (key == "maxFileSizeMiB" || key == "maxBackups" || key == "retentionMaxTotalMiB"
            || key == "managerMaxAgeDays" || key == "instanceMaxAgeDays" || key == "buildMaxAgeDays"
            || key == "errorMaxAgeDays" || key == "benchmarkMaxAgeDays"
            || key == "retentionIntervalMinutes") then Integer
      else if (key == "directory" || key == "level" || key == "managerConsoleFormat"
            || key == "managerConsoleTextFormat" || key == "managerFileFormat" || key == "transcriptConsoleFormat"
            || key == "transcriptConsoleTextFormat") then AnyText else NoField
    case "storage" =>
      if key == "keepPrevious" then Integer
      else if (key == "minimumFree" || key == "gracePeriod" || key == "automaticHousekeeping"
            || key == "buildCacheLimit" || key == "goCacheLimit") then AnyText else NoField
    case "runner" =>
      if (key == "includeHostLabel" || key == "ephemeral"
            || key == "noDefaultLabels") then Boolean else if key == "group" then AnyText else NoField
    case "security.runnerGroup" =>
      if (key == "requireExplicitGroup" || key == "requireNonDefaultGroup"
            || key == "requirePublicRepositoriesDisabled") then Boolean
      else if (key == "enforcement" || key == "requiredRepositoryAccess") then AnyText else NoField
    case "provider" =>
      if (key == "type" || key == "sourceImage" || key == "network" || key == "rosettaTag" || key == "installRoot"
            || key == "platform") then AnyText else NoField
    case "docker" => if (key == "httpProxy" || key == "httpsProxy" || key == "noProxy") then AnyText else NoField
    case "dockerSandboxes" =>
      if (key == "recoveryQuiescenceSeconds" || key == "cpus" || key == "maxConcurrentCreates") then Integer
      else if (key == "policyGeneration" || key == "networkBaseline" || key == "architectureEmulation"
            || key == "recoveryMode" || key == "stagingRoot" || key == "memory" || key == "rootDisk"
            || key == "dockerDisk") then AnyText else NoField
    case "timeouts" => if (key == "bootSeconds" || key == "githubOnlineSeconds"
          || key == "commandSeconds") then Integer else NoField
    case _ => NoField
  }

  /** The text suits the kind of field; `float` reads floating-point numbers. */
  predicate Suits(float: string -> bool, kind: Kind, value: string) {
    match kind
    case AnyText => true
    case Integer => IsInt(value)
    case Boolean => IsBool(value)
    case Float => float(value)
    case NoField => false
  }

  /** The check of each field; unknown names fit nothing. */
  predicate FieldFits(float: string -> bool, name: Name, value: string) {
    Suits(float, KindOf(name), value)
  }

  function Fits(float: string -> bool): (Name, string) -> bool {
    (name, value) => FieldFits(float, name, value)
  }

  // --------------------------------------------------------------------- lines

  /** An indented line of a section: a plain value, a quoted one, the head of a
      list, or a comment. */
  datatype Entry = Scalar(key: string, value: string) | Literal(key: string, text: string) | Empty(key: string) | Note(text: string)

  function Render(blanks: nat, e: Entry): string {
    match e
    case Scalar(key, value) => seq(blanks, _ => ' ') + (key + ": " + value)
    case Literal(key, text) => seq(blanks, _ => ' ') + (key + ": " + ("\"" + text + "\""))
    case Empty(key) => Heading(blanks, key)
    case Note(text) => seq(4, _ => ' ') + "# " + text
  }

  predicate IsLetter(c: char) {
    'a' <= c <= 'z' || 'A' <= c <= 'Z'
  }

  predicate Letters(s: string) {
    forall i | 0 <= i < |s| :: IsLetter(s[i])
  }

  predicate Clean(s: string) {
    forall i | 0 <= i < |s| :: s[i] != '"' && s[i] != '\'' && s[i] != '#' && s[i] != '\n'
  }

  /** A value that needs no quoting: no quote, no '#', no line break, and no white
      space around it. */
  predicate PlainValue(s: string) {
    s != "" && Clean(s) && !IsSpace(s[0]) && !IsSpace(Last(s))
  }

  /** A text that stands between quotes as it is. */
  predicate Bland(s: string) {
    forall i | 0 <= i < |s| :: s[i] != '"' && s[i] != '\\' && s[i] != '\n'
  }

  /** A key of letters that is none of the two quoted fields. */
  predicate Usual(key: string) {
    key != "" && Letters(key) && key != "customInstallScripts" && key != "group"
  }

  /** The entry can be loaded under this section name. */
  predicate Loads(float: string -> bool, section: string, e: Entry) {
    match e
    case Scalar(key, value) =>
      key != "" && Letters(key) && PlainValue(value) && (IsListKey((section, key)) || FieldFits(float, (section, key), value))
    case Literal(key, text) => key != "" && Letters(key) && Bland(text) && FieldFits(float, (section, key), text)
    case Empty(key) => key != "" && Letters(key) && IsListKey((section, key))
    case Note(text) => text != "" && !IsSpace(Last(text)) && '\n' !in text
  }

  lemma WordOfLetters(s: string)
    requires s != "" && Letters(s)
    ensures Word(s) && s[0] != '#'
  {
    assert IsLetter(s[0]) && IsLetter(s[|s| - 1]);
  }

  lemma CleanIsPlain(s: string)
    requires Clean(s)
    ensures Plain(s) && '\n' !in s
  {
  }

  // ------------------------------------------------------------- loading a line

  lemma {:induction false} CutAtColon(key: string, rest: string)
    requires ':' !in key
    ensures Before(key + (":" + rest), ':') == key && After(key + (":" + rest), ':') == rest
  {
    var s := key + (":" + rest);
    if key == "" {
      assert s == ":" + rest && s[1..] == rest;
    } else {
      CutAtColon(key[1..], rest);
      assert s[1..] == key[1..] + (":" + rest) && key == [key[0]] + key[1..];
    }
  }

  /** The bare text of an indented line that the stripper leaves whole. */
  lemma WholeLine(blanks: nat, line: string)
    requires line != "" && !IsSpace(line[0]) && line[0] != ' ' && !IsSpace(Last(line)) && Stripped(seq(blanks, _ => ' ') + line) == seq(blanks, _ => ' ') + line
    ensures var raw := seq(blanks, _ => ' ') + line; Bare(raw) == line && Indent(TrimBlanks(raw)) == blanks
  {
    var raw := seq(blanks, _ => ' ') + line;
    assert Last(raw) == Last(line) && TrimBlanks(raw) == raw;
    TrimLeftSkips(blanks, line);
    assert TrimRight(line) == line;
  }

  lemma KeyAndValue(key: string, value: string)
    requires key != "" && Letters(key) && value != "" && !IsSpace(value[0]) && !IsSpace(Last(value))
    ensures var line := key + ": " + value;
            Key(line) == key && Value(line) == value && ':' in line && !IsItem(line) && line[0] == key[0]
  {
    var line := key + ": " + value;
    WordOfLetters(key);
    CutAtColon(key, " " + value);
    assert line == key + (":" + (" " + value));
    assert line[|key|] == ':';
    TrimmedText(key);
    assert TrimRight(key) == key;
    assert (" " + value)[1..] == value && TrimLeft(" " + value) == TrimLeft(value) == value;
    assert TrimRight(value) == value;
  }

  /** Where a line stands. */
  predicate Under(s: State, blanks: nat, section: string) {
    && blanks > 0 && s.section != "" && section == (if s.section == "security" then s.section + "." + s.subsection else s.section)
    && (s.section == "security" ==> s.subsection == "runnerGroup" && blanks > s.subIndent)
  }

  predicate SamePlace(s: State, t: State) {
    t.section == s.section && t.subsection == s.subsection && t.subIndent == s.subIndent
  }

  lemma StepIsSetting(fits: (Name, string) -> bool, s: State, raw: string)
    requires Bare(raw) != "" && !IsItem(Bare(raw))
    ensures Step(fits, s, raw) == Setting(fits, s.(pending := None), Bare(raw), Indent(TrimBlanks(raw)))
  {
  }

  lemma AppliedIsTaken(float: string -> bool, c: Config, name: Name, value: string)
    requires IsListKey(name) || FieldFits(float, name, TrimQuotes(value))
    ensures Applied(Fits(float), c, name, value).Some?
  {
    assert Fits(float)(name, TrimQuotes(value)) == FieldFits(float, name, TrimQuotes(value));
  }

  lemma SettingIsApplied(fits: (Name, string) -> bool, s: State, line: string, indent: nat, name: Name, value: string)
    requires Under(s, indent, name.0) && Key(line) == name.1 && Value(line) == value != "" && ':' in line && name != ("pool", "logDir")
    ensures Setting(fits, s, line, indent)
            == var c := Applied(fits, s.config, name, value); if c.None? then None else Some(s.(config := c.value))
  {
  }

  lemma LogDirIsNoField(float: string -> bool, value: string)
    ensures !IsListKey(("pool", "logDir")) && !FieldFits(float, ("pool", "logDir"), value)
  {
  }

  /** A setting whose value is read as `text` is taken. */
  lemma SettingLoads(float: string -> bool, s: State, raw: string, section: string, key: string, value: string, text: string)
    requires Under(s, Indent(TrimBlanks(raw)), section) && key != "" && Letters(key) && value != ""
    requires var line := Bare(raw); line != "" && Key(line) == key && Value(line) == value && ':' in line && !IsItem(line)
    requires TrimQuotes(value) == text && (IsListKey((section, key)) || FieldFits(float, (section, key), text))
    ensures var t := Step(Fits(float), s, raw); t.Some? && SamePlace(s, t.value)
  {
    LogDirIsNoField(float, text);
    StepIsSetting(Fits(float), s, raw);
    AppliedIsTaken(float, s.config, (section, key), value);
    SettingIsApplied(Fits(float), s.(pending := None), Bare(raw), Indent(TrimBlanks(raw)), (section, key), value);
  }

  lemma ScalarLine(blanks: nat, key: string, value: string)
    requires key != "" && Letters(key) && PlainValue(value)
    ensures var raw, line := Render(blanks, Scalar(key, value)), key + ": " + value;
            Bare(raw) == line && line != "" && Indent(TrimBlanks(raw)) == blanks
            && Key(line) == key && Value(line) == value && ':' in line && !IsItem(line)
  {
    var line := key + ": " + value;
    var raw := seq(blanks, _ => ' ') + line;
    KeyAndValue(key, value);
    CleanIsPlain(value);
    WordOfLetters(key);
    assert Plain(raw);
    StripPlain(raw, "");
    assert raw + "" == raw && Stripped("") == "" && Stripped(raw) == raw;
    assert Last(line) == Last(value);
    WholeLine(blanks, line);
  }

  lemma ScalarLoads(float: string -> bool, s: State, blanks: nat, section: string, key: string, value: string)
    requires Under(s, blanks, section) && Loads(float, section, Scalar(key, value))
    ensures var t := Step(Fits(float), s, Render(blanks, Scalar(key, value))); t.Some? && SamePlace(s, t.value)
    ensures Key(Bare(Render(blanks, Scalar(key, value)))) == key && !IsItem(Bare(Render(blanks, Scalar(key, value))))
  {
    ScalarLine(blanks, key, value);
    CleanIsPlain(value);
    TrimmedText(value);
    PlainIsUnquoted(value);
    SettingLoads(float, s, Render(blanks, Scalar(key, value)), section, key, value, value);
  }

  lemma {:induction false} TrimRightKeeps(s: string, c: char)
    ensures c in TrimRight(s) ==> c in s
  {
    if s != "" && IsSpace(Last(s)) { TrimRightKeeps(Front(s), c); }
  }

  lemma {:induction false} TrimLeftKeeps(s: string, c: char)
    ensures c in TrimLeft(s) ==> c in s
  {
    if s != "" && IsSpace(s[0]) { TrimLeftKeeps(s[1..], c); }
  }

  lemma {:induction false} AfterKeeps(s: string, sep: char, c: char)
    ensures c in After(s, sep) ==> c in s
  {
    if s != "" && s[0] != sep { AfterKeeps(s[1..], sep, c); }
  }

  lemma TrimSpaceKeeps(s: string, c: char)
    ensures c in TrimSpace(s) ==> c in s
  {
    TrimLeftKeeps(s, c);
    TrimRightKeeps(TrimLeft(s), c);
  }

  lemma {:induction false} FirstHash(s: string) returns (a: string, b: string)
    requires '#' in s
    ensures s == a + ("#" + b) && '#' !in a
  {
    if s[0] == '#' {
      a, b := "", s[1..];
    } else {
      assert s == [s[0]] + s[1..];
      a, b := FirstHash(s[1..]);
      a := [s[0]] + a;
    }
  }

  /** A value that is written without quotes, and has none inside and no white
      space around it, is what the loader sees exactly if it has no '#': from
      there on it is taken for a comment. */
  lemma UnquotedValueIsKept(blanks: nat, key: string, value: string)
    requires key != "" && Letters(key) && value != "" && !IsSpace(value[0]) && !IsSpace(Last(value))
    requires '"' !in value && '\'' !in value && '\n' !in value
    ensures Value(Bare(Render(blanks, Scalar(key, value)))) == value <==> '#' !in value
  {
    if '#' !in value {
      ScalarLine(blanks, key, value);
    } else {
      var a, b := FirstHash(value);
      var head := seq(blanks, _ => ' ') + (key + ": ") + a;
      var raw := Render(blanks, Scalar(key, value));
      WordOfLetters(key);
      assert '#' !in key by { assert forall i | 0 <= i < |key| :: IsLetter(key[i]); }
      assert raw == head + ("#" + b) && Plain(head);
      assert Last(raw) == Last(value) && TrimBlanks(raw) == raw;
      StripPlain(head, "#" + b);
      assert Stripped("#" + b) == "" && Stripped(raw) == head;
      TrimSpaceKeeps(head, '#');
      AfterKeeps(Bare(raw), ':', '#');
      TrimSpaceKeeps(After(Bare(raw), ':'), '#');
    }
  }

  lemma PlainIsUnquoted(value: string)
    requires Plain(value) && TrimSpace(value) == value
    ensures TrimQuotes(value) == value
  {
    assert value != "" ==> value[0] in value;
  }

  lemma {:induction false} BlandUnquotes(text: string)
    requires Bland(text)
    ensures UnquoteAll(text) == Some(text)
    decreases |text|
  {
    if text != "" {
      BlandUnquotes(text[1..]);
      assert text == [text[0]] + text[1..];
    }
  }

  lemma LiteralLine(blanks: nat, key: string, text: string)
    requires key != "" && Letters(key) && Bland(text)
    ensures var raw, line := Render(blanks, Literal(key, text)), key + ": " + ("\"" + text + "\"");
            Bare(raw) == line && line != "" && Indent(TrimBlanks(raw)) == blanks
            && Key(line) == key && Value(line) == "\"" + text + "\"" && ':' in line && !IsItem(line)
  {
    var value := "\"" + text + "\"";
    var line := key + ": " + value;
    var lead := seq(blanks, _ => ' ') + (key + ": ");
    KeyAndValue(key, value);
    WordOfLetters(key);
    assert Plain(lead);
    BlandIsKept(lead, text);
    assert lead + value == seq(blanks, _ => ' ') + line;
    assert Last(line) == '"';
    WholeLine(blanks, line);
  }

  lemma LiteralText(text: string)
    requires Bland(text)
    ensures TrimQuotes("\"" + text + "\"") == text
  {
    var value := "\"" + text + "\"";
    BlandUnquotes(text);
    assert value[1..|value| - 1] == text;
    TrimmedText(value);
  }

  lemma LiteralLoads(float: string -> bool, s: State, blanks: nat, section: string, key: string, text: string)
    requires Under(s, blanks, section) && Loads(float, section, Literal(key, text))
    ensures var t := Step(Fits(float), s, Render(blanks, Literal(key, text))); t.Some? && SamePlace(s, t.value)
    ensures Key(Bare(Render(blanks, Literal(key, text)))) == key && !IsItem(Bare(Render(blanks, Literal(key, text))))
  {
    LiteralLine(blanks, key, text);
    LiteralText(text);
    SettingLoads(float, s, Render(blanks, Literal(key, text)), section, key, "\"" + text + "\"", text);
  }

  lemma BlandIsKept(lead: string, text: string)
    requires Plain(lead) && Bland(text)
    ensures Stripped(lead + ("\"" + text + "\"")) == lead + ("\"" + text + "\"")
  {
    var value := "\"" + text + "\"";
    StripPlain(lead, value);
    assert value[1..] == text + "\"";
    StripInside(text, "\"");
    assert Strip("\"", Quotes(false, true)) == "\"";
  }

  lemma EmptyLoads(float: string -> bool, s: State, blanks: nat, section: string, key: string)
    requires Under(s, blanks, section) && s.section != "security" && Loads(float, section, Empty(key))
    ensures var t := Step(Fits(float), s, Heading(blanks, key)); t.Some? && SamePlace(s, t.value)
    ensures Key(Bare(Heading(blanks, key))) == key && !IsItem(Bare(Heading(blanks, key)))
  {
    WordOfLetters(key);
    HeadingText(blanks, key);
    ListStep(Fits(float), s, Heading(blanks, key), key + ":", (section, key));
  }

  /** A comment and an empty line change nothing. */
  lemma NoteLoads(float: string -> bool, s: State, blanks: nat, text: string)
    requires text != "" && !IsSpace(Last(text))
    ensures Step(Fits(float), s, Render(blanks, Note(text))) == Some(s)
    ensures Bare(Render(blanks, Note(text))) == ""
  {
    CommentIsSkipped(Fits(float), s, 4, text);
  }

  lemma BlankLoads(float: string -> bool, s: State)
    ensures Step(Fits(float), s, "") == Some(s) && Bare("") == ""
  {
  }

  predicate Keyed(e: Entry, key: string) {
    !e.Note? && e.key == key
  }

  lemma EntryLoads(float: string -> bool, s: State, blanks: nat, section: string, e: Entry)
    requires Under(s, blanks, section) && Loads(float, section, e) && (s.section == "security" ==> !e.Empty?)
    ensures var t := Step(Fits(float), s, Render(blanks, e)); t.Some? && SamePlace(s, t.value)
    ensures !Keyed(e, "customInstallScripts") && !Keyed(e, "group") ==> Quiet(Render(blanks, e))
  {
    match e
    case Scalar(key, value) => ScalarLoads(float, s, blanks, section, key, value);
    case Literal(key, text) => LiteralLoads(float, s, blanks, section, key, text);
    case Empty(key) => EmptyLoads(float, s, blanks, section, key);
    case Note(text) => NoteLoads(float, s, blanks, text);
  }

  // ------------------------------------------------------------ loading a block

  function RenderAll(blanks: nat, entries: seq<Entry>): seq<string> {
    seq(|entries|, i requires 0 <= i < |entries| => Render(blanks, entries[i]))
  }

  /** The entry loads in this section, and is none of the quoted fields. */
  predicate Takes(float: string -> bool, section: string, e: Entry) {
    && Loads(float, section, e) && !Keyed(e, "customInstallScripts") && !Keyed(e, "group")
    && (section == "security.runnerGroup" ==> !e.Empty?)
  }

  ghost predicate AllLoad(float: string -> bool, section: string, entries: seq<Entry>) {
    forall e | e in entries :: Takes(float, section, e)
  }

  lemma Set(float: string -> bool, section: string, key: string, value: string, kind: Kind)
    requires Usual(key) && PlainValue(value) && KindOf((section, key)) == kind && Suits(float, kind, value)
    ensures Takes(float, section, Scalar(key, value))
  {
  }

  lemma SetLiteral(float: string -> bool, section: string, key: string, text: string)
    requires Usual(key) && Bland(text) && KindOf((section, key)) == AnyText
    ensures Takes(float, section, Literal(key, text))
  {
  }

  lemma SetList(float: string -> bool, section: string, key: string, value: string)
    requires Usual(key) && PlainValue(value) && IsListKey((section, key))
    ensures Takes(float, section, Scalar(key, value))
  {
  }

  lemma SetEmpty(float: string -> bool, section: string, key: string)
    requires Usual(key) && IsListKey((section, key)) && section != "security.runnerGroup"
    ensures Takes(float, section, Empty(key))
  {
  }

  lemma SetNote(float: string -> bool, section: string, text: string)
    requires text != "" && !IsSpace(text[|text| - 1]) && '\n' !in text
    ensures Takes(float, section, Note(text))
  {
  }

  lemma AllLoadOfSum(float: string -> bool, section: string, a: seq<Entry>, b: seq<Entry>)
    requires AllLoad(float, section, a) && AllLoad(float, section, b)
    ensures AllLoad(float, section, a + b)
  {
  }

  /** The lines load from `s`, in its place, and are quiet. */
  ghost predicate LinesLoad(float: string -> bool, s: State, lines: seq<string>) {
    && (forall l | l in lines :: Quiet(l))
    && var t := LoadLines(Fits(float), s, lines); t.Some? && SamePlace(s, t.value)
  }

  lemma AddLine(float: string -> bool, s: State, raw: string, t: State, lines: seq<string>)
    requires Step(Fits(float), s, raw) == Some(t) && Quiet(raw)
    requires (forall l | l in lines :: Quiet(l)) && LoadLines(Fits(float), t, lines).Some?
    ensures (forall l | l in [raw] + lines :: Quiet(l))
    ensures LoadLines(Fits(float), s, [raw] + lines) == LoadLines(Fits(float), t, lines)
  {
    assert ([raw] + lines)[1..] == lines;
    FirstInTurn((u: State, line: string) => Step(Fits(float), u, line), s, [raw] + lines, t);
  }

  lemma FirstEntryLoads(float: string -> bool, s: State, blanks: nat, section: string, entries: seq<Entry>) returns (t: State)
    requires Under(s, blanks, section) && AllLoad(float, section, entries) && entries != []
    ensures Step(Fits(float), s, Render(blanks, entries[0])) == Some(t) && Quiet(Render(blanks, entries[0]))
    ensures SamePlace(s, t) && Under(t, blanks, section) && AllLoad(float, section, entries[1..])
  {
    var e := entries[0];
    assert e in entries && forall x | x in entries[1..] :: x in entries;
    if s.section == "security" { UnderSecurity(s, blanks, section); }
    EntryLoads(float, s, blanks, section, e);
    t := Step(Fits(float), s, Render(blanks, e)).value;
  }

  lemma AddLineLoads(float: string -> bool, s: State, raw: string, t: State, lines: seq<string>)
    requires Step(Fits(float), s, raw) == Some(t) && Quiet(raw) && SamePlace(s, t) && LinesLoad(float, t, lines)
    ensures LinesLoad(float, s, [raw] + lines)
  {
    AddLine(float, s, raw, t, lines);
  }

  lemma FirstRendered(blanks: nat, entries: seq<Entry>)
    requires entries != []
    ensures RenderAll(blanks, entries) == [Render(blanks, entries[0])] + RenderAll(blanks, entries[1..])
  {
  }

  lemma {:induction false} EntriesLoad(float: string -> bool, s: State, blanks: nat, section: string, entries: seq<Entry>)
    requires Under(s, blanks, section) && AllLoad(float, section, entries)
    ensures LinesLoad(float, s, RenderAll(blanks, entries))
    decreases |entries|
  {
    if entries != [] {
      var t := FirstEntryLoads(float, s, blanks, section, entries);
      EntriesLoad(float, t, blanks, section, entries[1..]);
      FirstRendered(blanks, entries);
      AddLineLoads(float, s, Render(blanks, entries[0]), t, RenderAll(blanks, entries[1..]));
    }
  }

  lemma UnderSecurity(s: State, blanks: nat, section: string)
    requires Under(s, blanks, section) && s.section == "security"
    ensures section == "security.runnerGroup"
  {
    assert "security" + "." + "runnerGroup" == "security.runnerGroup";
  }

  function Section(section: string, entries: seq<Entry>): seq<string> {
    [Heading(0, section)] + RenderAll(2, entries)
  }

  /** A section with its entries and the empty line after it. */
  function Block(section: string, entries: seq<Entry>): seq<string> {
    Section(section, entries) + [""]
  }

  function SecurityBlock(entries: seq<Entry>): seq<string> {
    [Heading(0, "security"), Heading(2, "runnerGroup")] + RenderAll(4, entries) + [""]
  }

  lemma BlankAfter(float: string -> bool, s: State, lines: seq<string>)
    requires LinesLoad(float, s, lines)
    ensures LinesLoad(float, s, lines + [""])
  {
    var t := LoadLines(Fits(float), s, lines).value;
    LoadInTurn(Fits(float), s, lines, [""]);
    BlankLoads(float, t);
    FirstInTurn((u: State, line: string) => Step(Fits(float), u, line), t, [""], t);
    assert [""][1..] == [];
  }

  lemma HeadingIsQuiet(blanks: nat, word: string)
    requires Word(word) && word != "customInstallScripts" && word != "group"
    ensures Quiet(Heading(blanks, word))
  {
    HeadingText(blanks, word);
  }

  predicate Ordinary(section: string) {
    section in SECTIONS && section != "security" && section != "" && Letters(section) && section != "group" && section != "customInstallScripts"
  }

  /** The lines load from `s`, are quiet, and end in this section. */
  ghost predicate LinesEndIn(float: string -> bool, s: State, lines: seq<string>, section: string) {
    && (forall l | l in lines :: Quiet(l))
    && var t := LoadLines(Fits(float), s, lines); t.Some? && t.value.section == section
  }

  lemma AddLineEndsIn(float: string -> bool, s: State, raw: string, t: State, lines: seq<string>, section: string)
    requires Step(Fits(float), s, raw) == Some(t) && Quiet(raw) && LinesEndIn(float, t, lines, section)
    ensures LinesEndIn(float, s, [raw] + lines, section)
  {
    AddLine(float, s, raw, t, lines);
  }

  /** A section loads wherever it stands. */
  lemma SectionLoads(float: string -> bool, s: State, section: string, entries: seq<Entry>)
    requires Ordinary(section) && AllLoad(float, section, entries)
    ensures LinesEndIn(float, s, Section(section, entries), section)
  {
    WordOfLetters(section);
    HeadingIsQuiet(0, section);
    HeadingText(0, section);
    SectionStep(Fits(float), s, Heading(0, section), section + ":", section);
    var t := s.(section := section, subsection := "", subIndent := 0, pending := None);
    EntriesLoad(float, t, 2, section, entries);
    AddLineEndsIn(float, s, Heading(0, section), t, RenderAll(2, entries), section);
  }

  lemma BlankEndsIn(float: string -> bool, s: State, lines: seq<string>, section: string)
    requires LinesEndIn(float, s, lines, section)
    ensures LinesEndIn(float, s, lines + [""], section)
  {
    var t := LoadLines(Fits(float), s, lines).value;
    LoadInTurn(Fits(float), s, lines, [""]);
    BlankLoads(float, t);
    FirstInTurn((u: State, line: string) => Step(Fits(float), u, line), t, [""], t);
    assert [""][1..] == [];
  }

  lemma BlockLoads(float: string -> bool, s: State, section: string, entries: seq<Entry>)
    requires Ordinary(section) && AllLoad(float, section, entries)
    ensures LinesEndIn(float, s, Block(section, entries), section)
  {
    SectionLoads(float, s, section, entries);
    BlankEndsIn(float, s, Section(section, entries), section);
  }

  function AtSecurity(s: State): State {
    s.(section := "security", subsection := "", subIndent := 0, pending := None)
  }

  function AtRunnerGroup(s: State): State {
    AtSecurity(s).(subsection := "runnerGroup", subIndent := 2)
  }

  lemma SecurityLoads(float: string -> bool, s: State, entries: seq<Entry>)
    requires AllLoad(float, "security.runnerGroup", entries)
    ensures LinesEndIn(float, s, SecurityBlock(entries), "security")
  {
    var lines := [Heading(2, "runnerGroup")] + (RenderAll(4, entries) + [""]);
    RunnerGroupLoads(float, s, entries);
    SecurityStep(float, s);
    AddLineEndsIn(float, s, Heading(0, "security"), AtSecurity(s), lines, "security");
    FirstTwo(Heading(0, "security"), Heading(2, "runnerGroup"), RenderAll(4, entries), [""]);
  }

  lemma FirstTwo(a: string, b: string, c: seq<string>, d: seq<string>)
    ensures [a, b] + c + d == [a] + ([b] + (c + d))
  {
  }

  lemma RunnerGroupLoads(float: string -> bool, s: State, entries: seq<Entry>)
    requires AllLoad(float, "security.runnerGroup", entries)
    ensures LinesEndIn(float, AtSecurity(s), [Heading(2, "runnerGroup")] + (RenderAll(4, entries) + [""]), "security")
  {
    RunnerGroupEntriesLoad(float, s, entries);
    RunnerGroupStep(float, s);
    AddLineEndsIn(float, AtSecurity(s), Heading(2, "runnerGroup"), AtRunnerGroup(s), RenderAll(4, entries) + [""], "security");
  }

  lemma RunnerGroupEntriesLoad(float: string -> bool, s: State, entries: seq<Entry>)
    requires AllLoad(float, "security.runnerGroup", entries)
    ensures LinesLoad(float, AtRunnerGroup(s), RenderAll(4, entries) + [""])
  {
    assert "security" + "." + "runnerGroup" == "security.runnerGroup";
    EntriesLoad(float, AtRunnerGroup(s), 4, "security.runnerGroup", entries);
    BlankAfter(float, AtRunnerGroup(s), RenderAll(4, entries));
  }

  lemma SecurityStep(float: string -> bool, s: State)
    ensures Step(Fits(float), s, Heading(0, "security")) == Some(AtSecurity(s)) && Quiet(Heading(0, "security"))
  {
    var word := "security";
    assert Letters(word);
    WordOfLetters(word);
    HeadingText(0, word);
    SectionStep(Fits(float), s, Heading(0, word), word + ":", word);
  }

  lemma RunnerGroupStep(float: string -> bool, s: State)
    ensures Step(Fits(float), AtSecurity(s), Heading(2, "runnerGroup")) == Some(AtRunnerGroup(s)) && Quiet(Heading(2, "runnerGroup"))
  {
    var word := "runnerGroup";
    assert Letters(word);
    WordOfLetters(word);
    HeadingText(2, word);
    SubsectionStep(float, AtSecurity(s), Heading(2, word), word + ":");
  }

  lemma SubsectionStep(float: string -> bool, t: State, raw: string, line: string)
    requires Bare(raw) == line && line != "" && !IsItem(line) && Indent(TrimBlanks(raw)) == 2 && t.pending.None?
    requires ':' in line && Key(line) == "runnerGroup" && Value(line) == "" && t.section == "security"
    ensures Step(Fits(float), t, raw) == Some(t.(subsection := "runnerGroup", subIndent := 2))
  {
  }

  /** One part after the other. */
  lemma PartsEndIn(float: string -> bool, s: State, a: seq<string>, b: seq<string>, first: string, second: string)
    requires LinesEndIn(float, s, a, first)
    requires LinesEndIn(float, LoadLines(Fits(float), s, a).value, b, second)
    ensures LinesEndIn(float, s, a + b, second)
  {
    LoadInTurn(Fits(float), s, a, b);
  }

  // --------------------------------------------------------------- single lines

  lemma EndsLine(line: string)
    requires '\n' !in line && line != "" && !IsSpace(line[|line| - 1])
    ensures OneLine(line)
  {
  }

  lemma HeadingIsOneLine(blanks: nat, word: string)
    requires word != "" && Letters(word)
    ensures OneLine(Heading(blanks, word))
  {
    assert Last(Heading(blanks, word)) == ':';
    assert '\n' !in word by { assert forall i | 0 <= i < |word| :: IsLetter(word[i]); }
    EndsLine(Heading(blanks, word));
  }

  lemma EntryIsOneLine(float: string -> bool, section: string, blanks: nat, e: Entry)
    requires Loads(float, section, e)
    ensures OneLine(Render(blanks, e))
  {
    match e
    case Scalar(key, value) =>
      WordOfLetters(key);
      CleanIsPlain(value);
      NoBreakInLine(blanks, key, value);
    case Literal(key, text) =>
      var value := "\"" + text + "\"";
      assert '\n' !in value && value[|value| - 1] == '"';
      NoBreakInLine(blanks, key, value);
    case Empty(key) => HeadingIsOneLine(blanks, key);
    case Note(text) =>
      var line := seq(4, _ => ' ') + "# " + text;
      assert Last(line) == Last(text);
      EndsLine(line);
  }

  lemma NoBreakInLine(blanks: nat, key: string, value: string)
    requires Letters(key) && '\n' !in value && value != "" && !IsSpace(value[|value| - 1])
    ensures OneLine(seq(blanks, _ => ' ') + (key + ": " + value))
  {
    var line := seq(blanks, _ => ' ') + (key + ": " + value);
    assert '\n' !in key by { assert forall i | 0 <= i < |key| :: IsLetter(key[i]); }
    assert Last(line) == value[|value| - 1];
    EndsLine(line);
  }
}
