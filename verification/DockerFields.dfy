/** The fields of the configuration for Docker containers, each of which loads. */
module DockerFields {
  import opened ConfigTemplate
  import opened ConfigText
  import opened Text

  /** The answers that are written without quotes. */
  datatype Setup = Setup(appId: string, organization: string, privateKeyPath: string, sourceImage: string, platform: string,
                         frequency: string, time: string, trustMode: string, scopes: string, prefix: string, enforcement: string,
                         explicitGroup: bool, nonDefaultGroup: bool, access: string, publicDisabled: bool)

  /** Each of them is a plain value, and the application number a number. */
  predicate ValidSetup(p: Setup) {
    && PlainValue(p.appId) && IsInt(p.appId) && PlainValue(p.organization) && PlainValue(p.privateKeyPath)
    && PlainValue(p.sourceImage) && PlainValue(p.platform) && PlainValue(p.frequency) && Bland(p.time)
    && PlainValue(p.trustMode) && Clean(p.scopes) && PlainValue(p.prefix) && PlainValue(p.enforcement) && PlainValue(p.access)
  }

  function BoolText(b: bool): string {
    if b then "true" else "false"
  }

  function Listed(items: string): string {
    "[" + items + "]"
  }

  const OUTPUT := "epar-docker-container-catthehacker-ubuntu"

  function Labels(): string {
    Listed("self-hosted, linux, " + OUTPUT)
  }

  // ------------------------------------------------------------------- entries

  function Github1(p: Setup): seq<Entry> {
    [Scalar("appId", p.appId), Scalar("organization", p.organization), Scalar("privateKeyPath", p.privateKeyPath),
     Scalar("apiBaseUrl", "https://api.github.com")]
  }

  function Github2(): seq<Entry> {
    [Scalar("webBaseUrl", "https://github.com")]
  }

  function Image1(p: Setup): seq<Entry> {
    [Scalar("sourceType", "docker-image"), Scalar("sourceImage", p.sourceImage),
     Scalar("sourcePlatform", p.platform), Scalar("outputImage", OUTPUT)]
  }

  function Image2(p: Setup): seq<Entry> {
    [Scalar("upstreamDir", "third_party/runner-images"), Scalar("upstreamLock", "third_party/runner-images.lock"),
     Scalar("runnerVersion", "latest"), Scalar("updateFrequency", p.frequency)]
  }

  function Image3(p: Setup): seq<Entry> {
    [Literal("updateTime", p.time), Scalar("hostTrustMode", p.trustMode),
     Scalar("hostTrustScopes", Listed(p.scopes))]
  }

  function Pool1(p: Setup): seq<Entry> {
    [Scalar("instances", "1"), Scalar("namePrefix", p.prefix), Scalar("replacementRetryInitialSeconds", "15"),
     Scalar("replacementRetryMaxSeconds", "1800")]
  }

  function Pool2(): seq<Entry> {
    [Scalar("replacementRetryMultiplier", "2"), Scalar("replacementRetryJitterPercent", "20")]
  }

  function Storage1(): seq<Entry> {
    [Scalar("minimumFree", "1GiB"), Scalar("gracePeriod", "168h"), Scalar("keepPrevious", "0"),
     Scalar("automaticHousekeeping", "conservative")]
  }

  function Storage2(): seq<Entry> {
    [Scalar("buildCacheLimit", "20GiB"), Scalar("goCacheLimit", "10GiB")]
  }

  function Logging1(): seq<Entry> {
    [Scalar("directory", "work/logs"), Scalar("level", "info"), Scalar("managerSinks", "[console]"),
     Scalar("managerConsoleFormat", "text")]
  }

  function Logging2(): seq<Entry> {
    [Literal("managerConsoleTextFormat", "{time} [{level}] {message}"), Scalar("managerFileFormat", "json"),
     Scalar("transcriptSinks", "[file]"), Scalar("transcriptConsoleFormat", "text")]
  }

  function Logging3(): seq<Entry> {
    [Scalar("maxFileSizeMiB", "100"), Scalar("maxBackups", "3"), Scalar("compressBackups", "true"),
     Scalar("retentionEnabled", "true")]
  }

  function Logging4(): seq<Entry> {
    [Scalar("retentionMaxTotalMiB", "1024"), Scalar("managerMaxAgeDays", "14"), Scalar("instanceMaxAgeDays", "14"),
     Scalar("buildMaxAgeDays", "14")]
  }

  function Logging5(): seq<Entry> {
    [Scalar("errorMaxAgeDays", "30"), Scalar("benchmarkMaxAgeDays", "90"), Scalar("retentionIntervalMinutes", "60")]
  }

  function Runner(): seq<Entry> {
    [Scalar("labels", Labels()), Scalar("includeHostLabel", "true"), Scalar("ephemeral", "true")]
  }

  function Security1(p: Setup): seq<Entry> {
    [Scalar("enforcement", p.enforcement), Scalar("requireExplicitGroup", BoolText(p.explicitGroup)),
     Scalar("requireNonDefaultGroup", BoolText(p.nonDefaultGroup))]
  }

  function Security2(p: Setup): seq<Entry> {
    [Scalar("requiredRepositoryAccess", p.access),
     Scalar("requirePublicRepositoriesDisabled", BoolText(p.publicDisabled))]
  }

  function Provider(): seq<Entry> {
    [Scalar("type", "docker-container"), Scalar("sourceImage", OUTPUT), Scalar("network", "default")]
  }

  function Timeouts(): seq<Entry> {
    [Scalar("bootSeconds", "180"), Scalar("githubOnlineSeconds", "180"), Scalar("commandSeconds", "900")]
  }

  // ---------------------------------------------------- keys, kinds and values

  lemma GithubKeys()
    ensures Usual("appId") && KindOf(("github", "appId")) == Integer
    ensures Usual("organization") && KindOf(("github", "organization")) == AnyText
    ensures Usual("privateKeyPath") && KindOf(("github", "privateKeyPath")) == AnyText
    ensures Usual("apiBaseUrl") && KindOf(("github", "apiBaseUrl")) == AnyText
    ensures Usual("webBaseUrl") && KindOf(("github", "webBaseUrl")) == AnyText
  {
  }

  lemma ImageKeys()
    ensures Usual("sourceType") && KindOf(("image", "sourceType")) == AnyText
    ensures Usual("sourceImage") && KindOf(("image", "sourceImage")) == AnyText
    ensures Usual("sourcePlatform") && KindOf(("image", "sourcePlatform")) == AnyText
    ensures Usual("outputImage") && KindOf(("image", "outputImage")) == AnyText
    ensures Usual("upstreamDir") && KindOf(("image", "upstreamDir")) == AnyText
    ensures Usual("upstreamLock") && KindOf(("image", "upstreamLock")) == AnyText
  {
  }

  lemma ImageKeys2()
    ensures Usual("runnerVersion") && KindOf(("image", "runnerVersion")) == AnyText
    ensures Usual("updateFrequency") && KindOf(("image", "updateFrequency")) == AnyText
    ensures Usual("updateTime") && KindOf(("image", "updateTime")) == AnyText
    ensures Usual("hostTrustMode") && KindOf(("image", "hostTrustMode")) == AnyText
    ensures Usual("hostTrustScopes") && IsListKey(("image", "hostTrustScopes"))
  {
  }

  lemma PoolKeys()
    ensures Usual("instances") && KindOf(("pool", "instances")) == Integer
    ensures Usual("namePrefix") && KindOf(("pool", "namePrefix")) == AnyText
    ensures Usual("replacementRetryInitialSeconds") && KindOf(("pool", "replacementRetryInitialSeconds")) == Integer
  {
  }

  lemma PoolKeys2()
    ensures Usual("replacementRetryMaxSeconds") && KindOf(("pool", "replacementRetryMaxSeconds")) == Integer
    ensures Usual("replacementRetryMultiplier") && KindOf(("pool", "replacementRetryMultiplier")) == Float
    ensures Usual("replacementRetryJitterPercent") && KindOf(("pool", "replacementRetryJitterPercent")) == Integer
  {
  }

  lemma StorageKeys()
    ensures Usual("minimumFree") && KindOf(("storage", "minimumFree")) == AnyText
    ensures Usual("gracePeriod") && KindOf(("storage", "gracePeriod")) == AnyText
    ensures Usual("keepPrevious") && KindOf(("storage", "keepPrevious")) == Integer
  {
  }

  lemma StorageKeys2()
    ensures Usual("automaticHousekeeping") && KindOf(("storage", "automaticHousekeeping")) == AnyText
    ensures Usual("buildCacheLimit") && KindOf(("storage", "buildCacheLimit")) == AnyText
    ensures Usual("goCacheLimit") && KindOf(("storage", "goCacheLimit")) == AnyText
  {
  }

  lemma LoggingKeys()
    ensures Usual("directory") && KindOf(("logging", "directory")) == AnyText
    ensures Usual("level") && KindOf(("logging", "level")) == AnyText
  {
  }

  lemma LoggingKeys2()
    ensures Usual("managerSinks") && IsListKey(("logging", "managerSinks"))
    ensures Usual("managerConsoleFormat") && KindOf(("logging", "managerConsoleFormat")) == AnyText
  {
  }

  lemma LoggingKeys3()
    ensures Usual("managerConsoleTextFormat") && KindOf(("logging", "managerConsoleTextFormat")) == AnyText
    ensures Usual("managerFileFormat") && KindOf(("logging", "managerFileFormat")) == AnyText
  {
  }

  lemma LoggingKeys4()
    ensures Usual("transcriptSinks") && IsListKey(("logging", "transcriptSinks"))
    ensures Usual("transcriptConsoleFormat") && KindOf(("logging", "transcriptConsoleFormat")) == AnyText
  {
  }

  lemma LoggingKeys5()
    ensures Usual("maxFileSizeMiB") && KindOf(("logging", "maxFileSizeMiB")) == Integer
    ensures Usual("maxBackups") && KindOf(("logging", "maxBackups")) == Integer
  {
  }

  lemma LoggingKeys6()
    ensures Usual("compressBackups") && KindOf(("logging", "compressBackups")) == Boolean
    ensures Usual("retentionEnabled") && KindOf(("logging", "retentionEnabled")) == Boolean
  {
  }

  lemma LoggingKeys7()
    ensures Usual("retentionMaxTotalMiB") && KindOf(("logging", "retentionMaxTotalMiB")) == Integer
    ensures Usual("managerMaxAgeDays") && KindOf(("logging", "managerMaxAgeDays")) == Integer
  {
  }

  lemma LoggingKeys8()
    ensures Usual("instanceMaxAgeDays") && KindOf(("logging", "instanceMaxAgeDays")) == Integer
    ensures Usual("buildMaxAgeDays") && KindOf(("logging", "buildMaxAgeDays")) == Integer
  {
  }

  lemma LoggingKeys9()
    ensures Usual("errorMaxAgeDays") && KindOf(("logging", "errorMaxAgeDays")) == Integer
    ensures Usual("benchmarkMaxAgeDays") && KindOf(("logging", "benchmarkMaxAgeDays")) == Integer
  {
  }

  lemma LoggingKeys10()
    ensures Usual("retentionIntervalMinutes") && KindOf(("logging", "retentionIntervalMinutes")) == Integer
  {
  }

  lemma RunnerKeys()
    ensures Usual("labels") && IsListKey(("runner", "labels"))
    ensures Usual("includeHostLabel") && KindOf(("runner", "includeHostLabel")) == Boolean
    ensures Usual("ephemeral") && KindOf(("runner", "ephemeral")) == Boolean
  {
  }

  lemma SecurityKeys()
    ensures Usual("enforcement") && KindOf(("security.runnerGroup", "enforcement")) == AnyText
    ensures Usual("requireExplicitGroup") && KindOf(("security.runnerGroup", "requireExplicitGroup")) == Boolean
    ensures Usual("requireNonDefaultGroup") && KindOf(("security.runnerGroup", "requireNonDefaultGroup")) == Boolean
  {
  }

  lemma SecurityKeys2()
    ensures Usual("requiredRepositoryAccess") && KindOf(("security.runnerGroup", "requiredRepositoryAccess")) == AnyText
    ensures Usual("requirePublicRepositoriesDisabled") && KindOf(("security.runnerGroup", "requirePublicRepositoriesDisabled")) == Boolean
  {
  }

  lemma ProviderKeys()
    ensures Usual("type") && KindOf(("provider", "type")) == AnyText
    ensures Usual("sourceImage") && KindOf(("provider", "sourceImage")) == AnyText
    ensures Usual("network") && KindOf(("provider", "network")) == AnyText
  {
  }

  lemma TimeoutsKeys()
    ensures Usual("bootSeconds") && KindOf(("timeouts", "bootSeconds")) == Integer
    ensures Usual("githubOnlineSeconds") && KindOf(("timeouts", "githubOnlineSeconds")) == Integer
    ensures Usual("commandSeconds") && KindOf(("timeouts", "commandSeconds")) == Integer
  {
  }

  lemma Values1()
    ensures PlainValue("https://api.github.com")
  {
  }

  lemma Values2()
    ensures PlainValue("https://github.com")
    ensures PlainValue("docker-image")
  {
  }

  lemma Values3()
    ensures PlainValue(OUTPUT)
  {
  }

  lemma Values4()
    ensures PlainValue("third_party/runner-images")
  {
  }

  lemma Values5()
    ensures PlainValue("third_party/runner-images.lock")
    ensures PlainValue("latest")
  {
  }

  lemma Values6()
    ensures PlainValue("1") && IsInt("1")
    ensures PlainValue("15") && IsInt("15")
  {
  }

  lemma Values7()
    ensures PlainValue("1800") && IsInt("1800")
    ensures PlainValue("2")
  {
  }

  lemma Values8()
    ensures PlainValue("20") && IsInt("20")
    ensures PlainValue("1GiB")
    ensures PlainValue("168h")
  {
  }

  lemma Values9()
    ensures PlainValue("0") && IsInt("0")
    ensures PlainValue("conservative")
    ensures PlainValue("20GiB")
  {
  }

  lemma Values10()
    ensures PlainValue("10GiB")
    ensures PlainValue("work/logs")
    ensures PlainValue("info")
    ensures PlainValue("[console]")
  {
  }

  lemma Values11()
    ensures PlainValue("text")
    ensures Bland("{time} [{level}] {message}")
    ensures PlainValue("json")
  {
  }

  lemma Values12()
    ensures PlainValue("[file]")
    ensures PlainValue("100") && IsInt("100")
  {
  }

  lemma Values13()
    ensures PlainValue("3") && IsInt("3")
    ensures PlainValue("true") && IsBool("true")
  {
  }

  lemma Values14()
    ensures PlainValue("1024") && IsInt("1024")
    ensures PlainValue("14") && IsInt("14")
  {
  }

  lemma Values15()
    ensures PlainValue("30") && IsInt("30")
    ensures PlainValue("90") && IsInt("90")
  {
  }

  lemma Values16()
    ensures PlainValue("60") && IsInt("60")
    ensures PlainValue("docker-container")
  {
  }

  lemma Values17()
    ensures PlainValue("default")
    ensures PlainValue("180") && IsInt("180")
  {
  }

  lemma Values18()
    ensures PlainValue("900") && IsInt("900")
  {
  }

  lemma BoolTextIsRead(b: bool)
    ensures PlainValue(BoolText(b)) && IsBool(BoolText(b))
  {
  }

  lemma ListedIsPlain(items: string)
    requires Clean(items)
    ensures PlainValue(Listed(items))
  {
  }

  lemma LabelsArePlain()
    ensures PlainValue(Labels())
  {
    Values3();
    var first := "self-hosted, linux, ";
    assert Clean(first);
    ListedIsPlain(first + OUTPUT);
  }

  // --------------------------------------------------------------- they all load

  lemma Github1Loads(float: string -> bool, p: Setup)
    requires ValidSetup(p)
    ensures AllLoad(float, "github", Github1(p))
  {
    GithubKeys();
    Values1();
    Set(float, "github", "appId", p.appId, Integer);
    Set(float, "github", "organization", p.organization, AnyText);
    Set(float, "github", "privateKeyPath", p.privateKeyPath, AnyText);
    Set(float, "github", "apiBaseUrl", "https://api.github.com", AnyText);
  }

  lemma Github2Loads(float: string -> bool)
    ensures AllLoad(float, "github", Github2())
  {
    GithubKeys();
    Values2();
    Set(float, "github", "webBaseUrl", "https://github.com", AnyText);
  }

  lemma Image1Loads(float: string -> bool, p: Setup)
    requires ValidSetup(p)
    ensures AllLoad(float, "image", Image1(p))
  {
    ImageKeys();
    Values2();
    Values3();
    Set(float, "image", "sourceType", "docker-image", AnyText);
    Set(float, "image", "sourceImage", p.sourceImage, AnyText);
    Set(float, "image", "sourcePlatform", p.platform, AnyText);
    Set(float, "image", "outputImage", OUTPUT, AnyText);
  }

  lemma Image2Loads(float: string -> bool, p: Setup)
    requires ValidSetup(p)
    ensures AllLoad(float, "image", Image2(p))
  {
    ImageKeys();
    ImageKeys2();
    Values4();
    Values5();
    Set(float, "image", "upstreamDir", "third_party/runner-images", AnyText);
    Set(float, "image", "upstreamLock", "third_party/runner-images.lock", AnyText);
    Set(float, "image", "runnerVersion", "latest", AnyText);
    Set(float, "image", "updateFrequency", p.frequency, AnyText);
  }

  lemma Image3Loads(float: string -> bool, p: Setup)
    requires ValidSetup(p)
    ensures AllLoad(float, "image", Image3(p))
  {
    ImageKeys2();
    ListedIsPlain(p.scopes);
    SetLiteral(float, "image", "updateTime", p.time);
    Set(float, "image", "hostTrustMode", p.trustMode, AnyText);
    SetList(float, "image", "hostTrustScopes", Listed(p.scopes));
  }

  lemma Pool1Loads(float: string -> bool, p: Setup)
    requires ValidSetup(p)
    ensures AllLoad(float, "pool", Pool1(p))
  {
    PoolKeys();
    PoolKeys2();
    Values6();
    Values7();
    Set(float, "pool", "instances", "1", Integer);
    Set(float, "pool", "namePrefix", p.prefix, AnyText);
    Set(float, "pool", "replacementRetryInitialSeconds", "15", Integer);
    Set(float, "pool", "replacementRetryMaxSeconds", "1800", Integer);
  }

  lemma Pool2Loads(float: string -> bool)
    requires float("2")
    ensures AllLoad(float, "pool", Pool2())
  {
    PoolKeys2();
    Values7();
    Values8();
    Set(float, "pool", "replacementRetryMultiplier", "2", Float);
    Set(float, "pool", "replacementRetryJitterPercent", "20", Integer);
  }

  lemma Storage1Loads(float: string -> bool)
    ensures AllLoad(float, "storage", Storage1())
  {
    StorageKeys();
    StorageKeys2();
    Values8();
    Values9();
    Set(float, "storage", "minimumFree", "1GiB", AnyText);
    Set(float, "storage", "gracePeriod", "168h", AnyText);
    Set(float, "storage", "keepPrevious", "0", Integer);
    Set(float, "storage", "automaticHousekeeping", "conservative", AnyText);
  }

  lemma Storage2Loads(float: string -> bool)
    ensures AllLoad(float, "storage", Storage2())
  {
    StorageKeys2();
    Values10();
    Values9();
    Set(float, "storage", "buildCacheLimit", "20GiB", AnyText);
    Set(float, "storage", "goCacheLimit", "10GiB", AnyText);
  }

  lemma Logging1Loads(float: string -> bool)
    ensures AllLoad(float, "logging", Logging1())
  {
    LoggingKeys();
    LoggingKeys2();
    Values10();
    Values11();
    Set(float, "logging", "directory", "work/logs", AnyText);
    Set(float, "logging", "level", "info", AnyText);
    SetList(float, "logging", "managerSinks", "[console]");
    Set(float, "logging", "managerConsoleFormat", "text", AnyText);
  }

  lemma Logging2Loads(float: string -> bool)
    ensures AllLoad(float, "logging", Logging2())
  {
    LoggingKeys3();
    LoggingKeys4();
    Values11();
    Values12();
    SetLiteral(float, "logging", "managerConsoleTextFormat", "{time} [{level}] {message}");
    Set(float, "logging", "managerFileFormat", "json", AnyText);
    SetList(float, "logging", "transcriptSinks", "[file]");
    Set(float, "logging", "transcriptConsoleFormat", "text", AnyText);
  }

  lemma Logging3Loads(float: string -> bool)
    ensures AllLoad(float, "logging", Logging3())
  {
    LoggingKeys5();
    LoggingKeys6();
    Values12();
    Values13();
    Set(float, "logging", "maxFileSizeMiB", "100", Integer);
    Set(float, "logging", "maxBackups", "3", Integer);
    Set(float, "logging", "compressBackups", "true", Boolean);
    Set(float, "logging", "retentionEnabled", "true", Boolean);
  }

  lemma Logging4Loads(float: string -> bool)
    ensures AllLoad(float, "logging", Logging4())
  {
    LoggingKeys7();
    LoggingKeys8();
    Values14();
    Set(float, "logging", "retentionMaxTotalMiB", "1024", Integer);
    Set(float, "logging", "managerMaxAgeDays", "14", Integer);
    Set(float, "logging", "instanceMaxAgeDays", "14", Integer);
    Set(float, "logging", "buildMaxAgeDays", "14", Integer);
  }

  lemma Logging5Loads(float: string -> bool)
    ensures AllLoad(float, "logging", Logging5())
  {
    LoggingKeys9();
    LoggingKeys10();
    Values15();
    Values16();
    Set(float, "logging", "errorMaxAgeDays", "30", Integer);
    Set(float, "logging", "benchmarkMaxAgeDays", "90", Integer);
    Set(float, "logging", "retentionIntervalMinutes", "60", Integer);
  }

  lemma RunnerLoads(float: string -> bool)
    ensures AllLoad(float, "runner", Runner())
  {
    RunnerKeys();
    LabelsArePlain();
    Values13();
    SetList(float, "runner", "labels", Labels());
    Set(float, "runner", "includeHostLabel", "true", Boolean);
    Set(float, "runner", "ephemeral", "true", Boolean);
  }

  lemma Security1Loads(float: string -> bool, p: Setup)
    requires ValidSetup(p)
    ensures AllLoad(float, "security.runnerGroup", Security1(p))
  {
    SecurityKeys();
    BoolTextIsRead(p.explicitGroup);
    BoolTextIsRead(p.nonDefaultGroup);
    Set(float, "security.runnerGroup", "enforcement", p.enforcement, AnyText);
    Set(float, "security.runnerGroup", "requireExplicitGroup", BoolText(p.explicitGroup), Boolean);
    Set(float, "security.runnerGroup", "requireNonDefaultGroup", BoolText(p.nonDefaultGroup), Boolean);
  }

  lemma Security2Loads(float: string -> bool, p: Setup)
    requires ValidSetup(p)
    ensures AllLoad(float, "security.runnerGroup", Security2(p))
  {
    SecurityKeys2();
    BoolTextIsRead(p.publicDisabled);
    Set(float, "security.runnerGroup", "requiredRepositoryAccess", p.access, AnyText);
    Set(float, "security.runnerGroup", "requirePublicRepositoriesDisabled", BoolText(p.publicDisabled), Boolean);
  }

  lemma ProviderLoads(float: string -> bool)
    ensures AllLoad(float, "provider", Provider())
  {
    ProviderKeys();
    Values16();
    Values17();
    Values3();
    Set(float, "provider", "type", "docker-container", AnyText);
    Set(float, "provider", "sourceImage", OUTPUT, AnyText);
    Set(float, "provider", "network", "default", AnyText);
  }

  lemma TimeoutsLoads(float: string -> bool)
    ensures AllLoad(float, "timeouts", Timeouts())
  {
    TimeoutsKeys();
    Values17();
    Values18();
    Set(float, "timeouts", "bootSeconds", "180", Integer);
    Set(float, "timeouts", "githubOnlineSeconds", "180", Integer);
    Set(float, "timeouts", "commandSeconds", "900", Integer);
  }

  // ---------------------------------------------------------------- the sections

  function GithubAll(p: Setup): seq<Entry> {
    Github1(p) + Github2()
  }

  lemma GithubAllLoad(float: string -> bool, p: Setup)
    requires ValidSetup(p)
    ensures AllLoad(float, "github", GithubAll(p))
  {
    Github1Loads(float, p);
    Github2Loads(float);
    AllLoadOfSum(float, "github", Github1(p), Github2());
  }

  function ImageAll(p: Setup): seq<Entry> {
    Image1(p) + Image2(p) + Image3(p)
  }

  lemma ImageAllLoad(float: string -> bool, p: Setup)
    requires ValidSetup(p)
    ensures AllLoad(float, "image", ImageAll(p))
  {
    Image1Loads(float, p);
    Image2Loads(float, p);
    Image3Loads(float, p);
    AllLoadOfSum(float, "image", Image1(p), Image2(p));
    AllLoadOfSum(float, "image", Image1(p) + Image2(p), Image3(p));
  }

  function PoolAll(p: Setup): seq<Entry> {
    Pool1(p) + Pool2()
  }

  lemma PoolAllLoad(float: string -> bool, p: Setup)
    requires ValidSetup(p) && float("2")
    ensures AllLoad(float, "pool", PoolAll(p))
  {
    Pool1Loads(float, p);
    Pool2Loads(float);
    AllLoadOfSum(float, "pool", Pool1(p), Pool2());
  }

  function StorageAll(): seq<Entry> {
    Storage1() + Storage2()
  }

  lemma StorageAllLoad(float: string -> bool)
    ensures AllLoad(float, "storage", StorageAll())
  {
    Storage1Loads(float);
    Storage2Loads(float);
    AllLoadOfSum(float, "storage", Storage1(), Storage2());
  }

  function LoggingAll(): seq<Entry> {
    Logging1() + Logging2() + Logging3() + Logging4() + Logging5()
  }

  lemma LoggingAllLoad(float: string -> bool)
    ensures AllLoad(float, "logging", LoggingAll())
  {
    Logging1Loads(float);
    Logging2Loads(float);
    Logging3Loads(float);
    Logging4Loads(float);
    Logging5Loads(float);
    AllLoadOfSum(float, "logging", Logging1(), Logging2());
    AllLoadOfSum(float, "logging", Logging1() + Logging2(), Logging3());
    AllLoadOfSum(float, "logging", Logging1() + Logging2() + Logging3(), Logging4());
    AllLoadOfSum(float, "logging", Logging1() + Logging2() + Logging3() + Logging4(), Logging5());
  }

  function SecurityAll(p: Setup): seq<Entry> {
    Security1(p) + Security2(p)
  }

  lemma SecurityAllLoad(float: string -> bool, p: Setup)
    requires ValidSetup(p)
    ensures AllLoad(float, "security.runnerGroup", SecurityAll(p))
  {
    Security1Loads(float, p);
    Security2Loads(float, p);
    AllLoadOfSum(float, "security.runnerGroup", Security1(p), Security2(p));
  }

  function Docker(): seq<Entry> {
    [Empty("registryMirrors"), Note("- http://host.docker.internal:5050")]
  }

  lemma MirrorsKey()
    ensures Usual("registryMirrors") && IsListKey(("docker", "registryMirrors"))
  {
  }

  lemma MirrorExample()
    ensures var text := "- http://host.docker.internal:5050"; text != "" && !IsSpace(text[|text| - 1]) && '\n' !in text
  {
  }

  lemma DockerLoads(float: string -> bool)
    ensures AllLoad(float, "docker", Docker())
  {
    MirrorsKey();
    MirrorExample();
    SetEmpty(float, "docker", "registryMirrors");
    SetNote(float, "docker", "- http://host.docker.internal:5050");
  }
}
