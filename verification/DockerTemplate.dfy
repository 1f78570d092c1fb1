/** The configuration that setup writes for Docker containers: every line of it
    loads, and its two quoted fields are read back. */
module DockerTemplate {
  import opened ConfigTemplate
  import opened ConfigText
  import opened DockerFields
  import opened GoQuoting
  import opened Splitting
  import opened Text
  import opened Wrappers

  lemma SectionNames()
    ensures Ordinary("github") && Ordinary("pool") && Ordinary("storage") && Ordinary("logging")
    ensures Ordinary("provider") && Ordinary("docker") && Ordinary("timeouts") && Ordinary("image")
  {
  }

  // ------------------------------------------------------------- the whole text

  /** What stands before the list of scripts. */
  function Preamble(p: Setup): seq<string> {
    Block("github", GithubAll(p)) + Section("image", ImageAll(p))
  }

  /** What stands between the list and the runner section. */
  function Middle(p: Setup): seq<string> {
    [""] + (Block("pool", PoolAll(p)) + (Block("storage", StorageAll()) + Block("logging", LoggingAll())))
  }

  /** What stands after the group. */
  function Rest(p: Setup): seq<string> {
    RenderAll(2, Runner()) + [""]
    + (SecurityBlock(SecurityAll(p)) + (Block("provider", Provider()) + (Block("docker", Docker()) + Section("timeouts", Timeouts()))))
  }

  function DockerLines(printable: char -> bool, p: Setup, paths: seq<string>, name: string): seq<string> {
    Generated(printable, Preamble(p), paths, Middle(p), name, Rest(p))
  }

  lemma PreambleLoads(float: string -> bool, p: Setup, s: State)
    requires ValidSetup(p)
    ensures LinesEndIn(float, s, Preamble(p), "image")
  {
    SectionNames();
    GithubAllLoad(float, p);
    ImageAllLoad(float, p);
    BlockLoads(float, s, "github", GithubAll(p));
    SectionLoads(float, LoadLines(Fits(float), s, Block("github", GithubAll(p))).value, "image", ImageAll(p));
    PartsEndIn(float, s, Block("github", GithubAll(p)), Section("image", ImageAll(p)), "github", "image");
  }

  /** Blocks load one after the other, from wherever the first one stands. */
  lemma ThenBlock(float: string -> bool, s: State, before: seq<string>, place: string, section: string, entries: seq<Entry>)
    requires LinesEndIn(float, s, before, place) && Ordinary(section) && AllLoad(float, section, entries)
    ensures LinesEndIn(float, s, before + Block(section, entries), section)
    ensures LinesEndIn(float, s, before + Section(section, entries), section)
  {
    var t := LoadLines(Fits(float), s, before).value;
    BlockLoads(float, t, section, entries);
    SectionLoads(float, t, section, entries);
    PartsEndIn(float, s, before, Block(section, entries), place, section);
    PartsEndIn(float, s, before, Section(section, entries), place, section);
  }

  lemma BlankLine(float: string -> bool, s: State)
    ensures LinesEndIn(float, s, [""], s.section)
  {
    BlankLoads(float, s);
    FirstInTurn((u: State, line: string) => Step(Fits(float), u, line), s, [""], s);
    assert [""][1..] == [];
  }

  lemma MiddleLoads(float: string -> bool, p: Setup, s: State)
    requires ValidSetup(p) && float("2")
    ensures LinesEndIn(float, s, Middle(p), "logging")
  {
    SectionNames();
    PoolAllLoad(float, p);
    StorageAllLoad(float);
    LoggingAllLoad(float);
    BlankLine(float, s);
    ThenBlock(float, s, [""], s.section, "pool", PoolAll(p));
    ThenBlock(float, s, [""] + Block("pool", PoolAll(p)), "pool", "storage", StorageAll());
    ThenBlock(float, s, [""] + Block("pool", PoolAll(p)) + Block("storage", StorageAll()), "storage", "logging", LoggingAll());
    SumInOrder([""], Block("pool", PoolAll(p)), Block("storage", StorageAll()), Block("logging", LoggingAll()));
  }

  lemma SumInOrder(a: seq<string>, b: seq<string>, c: seq<string>, d: seq<string>)
    ensures a + b + c + d == a + (b + (c + d))
  {
  }

  lemma RestLoads(float: string -> bool, p: Setup, s: State)
    requires ValidSetup(p) && s.section == "runner"
    ensures LinesEndIn(float, s, Rest(p), "timeouts")
  {
    var runner := RenderAll(2, Runner()) + [""];
    RunnerRestLoads(float, s);
    SecurityAllLoad(float, p);
    var t := LoadLines(Fits(float), s, runner).value;
    SecurityLoads(float, t, SecurityAll(p));
    LastBlocksLoad(float, t, SecurityBlock(SecurityAll(p)));
    PartsEndIn(float, s, runner,
               SecurityBlock(SecurityAll(p)) + (Block("provider", Provider()) + (Block("docker", Docker()) + Section("timeouts", Timeouts()))),
               "runner", "timeouts");
  }

  lemma RunnerRestLoads(float: string -> bool, s: State)
    requires s.section == "runner"
    ensures LinesEndIn(float, s, RenderAll(2, Runner()) + [""], "runner")
  {
    RunnerLoads(float);
    EntriesLoad(float, s, 2, "runner", Runner());
    BlankEndsIn(float, s, RenderAll(2, Runner()), "runner");
  }

  lemma LastBlocksLoad(float: string -> bool, s: State, security: seq<string>)
    requires LinesEndIn(float, s, security, "security")
    ensures LinesEndIn(float, s, security + (Block("provider", Provider()) + (Block("docker", Docker()) + Section("timeouts", Timeouts()))), "timeouts")
  {
    SectionNames();
    ProviderLoads(float);
    DockerLoads(float);
    TimeoutsLoads(float);
    ThenBlock(float, s, security, "security", "provider", Provider());
    ThenBlock(float, s, security + Block("provider", Provider()), "provider", "docker", Docker());
    ThenBlock(float, s, security + Block("provider", Provider()) + Block("docker", Docker()), "docker", "timeouts", Timeouts());
    SumInOrder(security, Block("provider", Provider()), Block("docker", Docker()), Section("timeouts", Timeouts()));
  }

  /** The other lines load around any scripts and any group. */
  lemma OtherLinesLoad(float: string -> bool, p: Setup, start: State, paths: seq<string>, name: string)
    requires ValidSetup(p) && float("2")
    ensures OthersLoad(Fits(float), start, Preamble(p), paths, Middle(p), name, Rest(p))
  {
    PreambleLoads(float, p, start);
    var s1 := LoadLines(Fits(float), start, Preamble(p)).value;
    MiddleLoads(float, p, AfterBlock(s1, paths));
    var s3 := LoadLines(Fits(float), AfterBlock(s1, paths), Middle(p)).value;
    RestLoads(float, p, AfterGroup(s3, name));
  }

  lemma GroupFits(float: string -> bool)
    ensures forall v: string :: Fits(float)(GROUP, v)
  {
    assert KindOf(GROUP) == AnyText;
  }

  /** The text loads and gives back exactly the group name and the script paths,
      in order, if no literal is cut; all answers are plain values. */
  lemma DockerLinesAreReadBack(float: string -> bool, printable: char -> bool, p: Setup, start: State, paths: seq<string>, name: string)
    requires Printing(printable) && ValidSetup(p) && float("2")
    requires Kept(printable, paths) && Stripped(GroupLine(printable, name)) == GroupLine(printable, name)
    ensures ReadBack(LoadLines(Fits(float), start, DockerLines(printable, p, paths, name)), paths, name)
  {
    OtherLinesLoad(float, p, start, paths, name);
    GroupFits(float);
    GeneratedTextIsReadBack(Fits(float), printable, start, Preamble(p), paths, Middle(p), name, Rest(p));
  }

  /** For names and paths without double quotes none is. */
  lemma QuotelessDockerLinesAreReadBack(float: string -> bool, printable: char -> bool, p: Setup, start: State, paths: seq<string>, name: string)
    requires Printing(printable) && ValidSetup(p) && float("2")
    requires '"' !in name && forall path | path in paths :: path != "" && '"' !in path
    ensures ReadBack(LoadLines(Fits(float), start, DockerLines(printable, p, paths, name)), paths, name)
  {
    OtherLinesLoad(float, p, start, paths, name);
    GroupFits(float);
    QuotelessTextIsReadBack(Fits(float), printable, start, Preamble(p), paths, Middle(p), name, Rest(p));
  }

  // ------------------------------------------------------------ as one text

  ghost predicate AllOneLine(lines: seq<string>) {
    forall l | l in lines :: OneLine(l)
  }

  lemma EntriesAreOneLine(float: string -> bool, section: string, blanks: nat, entries: seq<Entry>)
    requires AllLoad(float, section, entries)
    ensures AllOneLine(RenderAll(blanks, entries))
  {
    forall i | 0 <= i < |entries| ensures OneLine(Render(blanks, entries[i])) {
      assert entries[i] in entries;
      EntryIsOneLine(float, section, blanks, entries[i]);
    }
  }

  lemma SectionIsOneLine(float: string -> bool, section: string, entries: seq<Entry>)
    requires AllLoad(float, section, entries) && Letters(section) && section != ""
    ensures AllOneLine(Section(section, entries)) && AllOneLine(Block(section, entries))
  {
    EntriesAreOneLine(float, section, 2, entries);
    HeadingIsOneLine(0, section);
  }

  lemma PreambleIsOneLine(float: string -> bool, p: Setup)
    requires ValidSetup(p)
    ensures AllOneLine(Preamble(p))
  {
    SectionNames();
    GithubAllLoad(float, p);
    ImageAllLoad(float, p);
    SectionIsOneLine(float, "github", GithubAll(p));
    SectionIsOneLine(float, "image", ImageAll(p));
  }

  lemma MiddleIsOneLine(float: string -> bool, p: Setup)
    requires ValidSetup(p) && float("2")
    ensures AllOneLine(Middle(p))
  {
    SectionNames();
    PoolAllLoad(float, p);
    StorageAllLoad(float);
    LoggingAllLoad(float);
    SectionIsOneLine(float, "pool", PoolAll(p));
    SectionIsOneLine(float, "storage", StorageAll());
    SectionIsOneLine(float, "logging", LoggingAll());
  }

  lemma RestIsOneLine(float: string -> bool, p: Setup)
    requires ValidSetup(p)
    ensures AllOneLine(Rest(p))
  {
    SectionNames();
    RunnerLoads(float);
    SecurityAllLoad(float, p);
    ProviderLoads(float);
    DockerLoads(float);
    TimeoutsLoads(float);
    EntriesAreOneLine(float, "runner", 2, Runner());
    EntriesAreOneLine(float, "security.runnerGroup", 4, SecurityAll(p));
    SecurityHeadingsAreOneLine();
    SectionIsOneLine(float, "provider", Provider());
    SectionIsOneLine(float, "docker", Docker());
    SectionIsOneLine(float, "timeouts", Timeouts());
  }

  lemma SecurityHeadingsAreOneLine()
    ensures OneLine(Heading(0, "security")) && OneLine(Heading(2, "runnerGroup"))
  {
    var security, group := "security", "runnerGroup";
    assert Letters(security) && Letters(group);
    HeadingIsOneLine(0, security);
    HeadingIsOneLine(2, group);
  }

  lemma FieldsAreOneLine(printable: char -> bool, paths: seq<string>, name: string)
    requires Printing(printable)
    ensures AllOneLine([Heading(2, "customInstallScripts")] + ScriptLines(printable, paths))
    ensures AllOneLine([Heading(0, "runner"), GroupLine(printable, name)])
  {
    var scripts, runner := "customInstallScripts", "runner";
    assert Letters(scripts) && Letters(runner);
    HeadingIsOneLine(2, scripts);
    HeadingIsOneLine(0, runner);
    QuotedFieldsStayOnLine(printable, name);
    forall path ensures OneLine(ItemLine(printable, path)) { QuotedFieldsStayOnLine(printable, path); }
    NoScriptsIsOneLine();
  }

  lemma NoScriptsIsOneLine()
    ensures OneLine(NoScripts())
  {
    assert '\n' !in EXAMPLE_DIRECTORY && '\n' !in EXAMPLE_SCRIPT;
    assert Last(NoScripts()) == Last(EXAMPLE_SCRIPT) == 'h';
  }

  /** The file: every line and a line break after it. */
  function DockerText(printable: char -> bool, p: Setup, paths: seq<string>, name: string): string {
    Join(DockerLines(printable, p, paths, name) + [""], '\n')
  }

  /** For every plain setup, every group name and every list of non-empty paths
      without double quotes: the written text is scanned as its lines, every line
      loads, and name and paths are read back exactly. */
  lemma DockerTextIsReadBack(float: string -> bool, printable: char -> bool, p: Setup, defaults: Config, paths: seq<string>, name: string)
    requires Printing(printable) && ValidSetup(p) && float("2")
    requires '"' !in name && forall path | path in paths :: path != "" && '"' !in path
    ensures var start := State("", "", 0, None, defaults);
            ReadBack(LoadLines(Fits(float), start, ScanLines(DockerText(printable, p, paths, name))), paths, name)
  {
    PreambleIsOneLine(float, p);
    MiddleIsOneLine(float, p);
    RestIsOneLine(float, p);
    FieldsAreOneLine(printable, paths, name);
    LinesSurvive(DockerLines(printable, p, paths, name));
    QuotelessDockerLinesAreReadBack(float, printable, p, State("", "", 0, None, defaults), paths, name);
  }
}
