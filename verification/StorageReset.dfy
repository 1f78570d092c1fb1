/** Resetting the storage of one configuration: what a plan may remove, what its
    approval fixes, and what the catalog forgets afterwards. */
module StorageReset {
  import opened Ordering
  import opened ResetApproval
  import opened Splitting
  import opened Text
  import opened Wrappers

  // -------------------------------------------------------------------- state

  datatype Reference = Reference(config: string, role: string)
  datatype Resource = Resource(key: string, kind: string, locator: string, identity: string,
                               references: seq<Reference>, current: bool)
  datatype ConfigRecord = ConfigRecord(id: string, leaseUntil: Option<int>)
  datatype Catalog = Catalog(configs: seq<ConfigRecord>, resources: seq<Resource>)

  datatype Artifact = Artifact(id: string, target: Target, exact: bool, size: nat)
  datatype Observation = Observation(exists_: bool, target: Target)

  /** The outside world during one plan: whether a path is absolute and its file
      gone, the artifact behind a resource, what the executor sees of a target,
      and whether a path lies inside a directory. `hash` is the SHA-256 digest. */
  datatype Host = Host(absolute: string -> bool, gone: string -> bool, artifact: Resource -> Option<Artifact>,
                       observe: Target -> Option<Observation>, inside: (string, seq<string>) -> bool,
                       hash: string -> string)

  datatype Report = Report(config: string, plan: seq<Artifact>, shared: seq<Shared>, missing: seq<Missing>, approval: string)

  ghost predicate Leased(catalog: Catalog, config: string, now: int) {
    exists r | r in catalog.configs :: r.id == config && r.leaseUntil.Some? && r.leaseUntil.value > now
  }

  ghost predicate Refers(r: Resource, config: string) {
    exists x | x in r.references :: x.config == config
  }

  ghost predicate RefersOnlyTo(r: Resource, config: string) {
    Refers(r, config) && forall x | x in r.references :: x.config == config
  }

  // --------------------------------------------------------------------- plan

  datatype Verdict = Skip | Share(shared: Shared) | Forget(missing: Missing) | Remove(artifact: Artifact) | Stop

  function OtherConfigs(references: seq<Reference>, config: string): seq<string> {
    if references == [] then []
    else
      OtherConfigs(Front(references), config)
      + if Last(references).config == config then [] else [Last(references).config]
  }

  predicate Mentions(references: seq<Reference>, config: string) {
    exists i | 0 <= i < |references| :: references[i].config == config
  }

  const CLAIM := "docker-output-tag-claim"
  const EXTERNAL_ID := "reset-external-"

  predicate LocalKind(kind: string) {
    kind == "provider-image" || kind == "template-staging-directory" || kind == "prebuilt-package-archive"
  }

  predicate InsideRoots(host: Host, target: Target, roots: seq<string>) {
    (target.kind == "file" || target.kind == "directory") && host.inside(target.locator, roots)
  }

  function Judge(host: Host, config: string, roots: seq<string>, r: Resource): Verdict {
    var missing := Missing(r.key, r.kind, r.locator, r.identity);
    var others := OtherConfigs(r.references, config);
    if !Mentions(r.references, config) then Skip
    else if others != [] then Share(Shared(r.kind, r.locator, r.identity, SortStrings(others)))
    else if r.kind == CLAIM then Skip
    else if LocalKind(r.kind) && host.absolute(r.locator) && host.gone(r.locator) then Forget(missing)
    else if host.artifact(r).None? || !host.artifact(r).value.exact then Stop
    else
      var artifact := host.artifact(r).value;
      if InsideRoots(host, artifact.target, roots) then Skip
      else if host.observe(artifact.target).None? then Stop
      else if !host.observe(artifact.target).value.exists_ then Forget(missing)
      else if host.observe(artifact.target).value.target != artifact.target then Stop
      else Remove(artifact.(id := EXTERNAL_ID + r.key))
  }

  datatype Gathered = Gathered(removals: seq<Artifact>, shared: seq<Shared>, missing: seq<Missing>)

  /** The verdicts of a catalog in its order; `None` once one says stop. */
  function Gather(host: Host, config: string, roots: seq<string>, resources: seq<Resource>): Option<Gathered> {
    if resources == [] then Some(Gathered([], [], []))
    else
      var g := Gather(host, config, roots, Front(resources));
      if g.None? then None
      else
        match Judge(host, config, roots, Last(resources))
        case Skip => g
        case Share(shared) => Some(g.value.(shared := g.value.shared + [shared]))
        case Forget(missing) => Some(g.value.(missing := g.value.missing + [missing]))
        case Remove(artifact) => Some(g.value.(removals := g.value.removals + [artifact]))
        case Stop => None
  }

  ghost predicate DistinctIds(artifacts: seq<Artifact>) {
    forall i, j | 0 <= i < j < |artifacts| :: artifacts[i].id != artifacts[j].id
  }

  predicate ExactTarget(t: Target) {
    t.match_ == "exact" && t.kind != "" && t.locator != "" && t.identity != ""
  }

  predicate Plannable(a: Artifact) {
    TrimSpace(a.id) != "" && a.exact && ExactTarget(a.target)
  }

  predicate IdLess(a: Artifact, b: Artifact) {
    Less(a.id, b.id)
  }

  function ById(artifacts: seq<Artifact>): seq<Artifact> {
    SortWith(artifacts, IdLess)
  }

  lemma ByIdPermutes(artifacts: seq<Artifact>)
    ensures SortedWith(ById(artifacts), IdLess)
    ensures multiset(ById(artifacts)) == multiset(artifacts)
    ensures forall a :: a in ById(artifacts) <==> a in artifacts
  {
    LessIsOrder();
    assert WeakOrder(IdLess);
    SortWithSorts(artifacts, IdLess);
    SortWithMembers(artifacts, IdLess);
  }

  /** The artifacts in the order of their identities, none twice, each exact. */
  method ExplicitRemovalPlan(artifacts: seq<Artifact>) returns (plan: Option<seq<Artifact>>)
    ensures plan.Some? <==> DistinctIds(ById(artifacts)) && forall a | a in artifacts :: Plannable(a)
    ensures plan.Some? ==> plan.value == ById(artifacts)
  {
    var items := ById(artifacts);
    ByIdPermutes(artifacts);
    var seen: set<string> := {};
    assert items[..0] == [];
    for i := 0 to |items|
      invariant Accepted(items[..i], seen)
    {
      assert items[..i + 1] == items[..i] + [items[i]];
      if !Plannable(items[i]) || items[i].id in seen {
        RefusesItem(items, i, seen);
        return None;
      }
      AcceptsItem(items[..i], items[i], seen);
      seen := seen + {items[i].id};
    }
    assert items[..|items|] == items;
    plan := Some(items);
  }

  ghost function Ids(artifacts: seq<Artifact>): set<string> {
    set a | a in artifacts :: a.id
  }

  /** All artifacts so far can be planned, under identities that differ. */
  ghost predicate Accepted(items: seq<Artifact>, seen: set<string>) {
    seen == Ids(items) && DistinctIds(items) && forall a | a in items :: Plannable(a)
  }

  lemma RefusesItem(items: seq<Artifact>, i: nat, seen: set<string>)
    requires i < |items| && Accepted(items[..i], seen) && (!Plannable(items[i]) || items[i].id in seen)
    ensures !DistinctIds(items) || exists a | a in items :: !Plannable(a)
  {
    assert items[i] in items;
    if items[i].id in seen {
      var j :| 0 <= j < i && items[j].id == items[i].id;
    }
  }

  lemma AcceptsItem(artifacts: seq<Artifact>, a: Artifact, seen: set<string>)
    requires Accepted(artifacts, seen) && Plannable(a) && a.id !in seen
    ensures Accepted(artifacts + [a], seen + {a.id})
  {
    assert forall i | 0 <= i < |artifacts| :: artifacts[i] in artifacts;
  }

  function Removals(plan: seq<Artifact>): seq<Removal> {
    seq(|plan|, i requires 0 <= i < |plan| => Removal(plan[i].id, plan[i].target, plan[i].size))
  }

  function ApprovalOf(r: Report): Approval {
    Approval(r.config, Removals(r.plan), r.shared, r.missing)
  }

  function ApprovalHash(host: Host, r: Report): string {
    host.hash(Encoded(ApprovalOf(r)))
  }

  /** What a report says about the catalog it was built from. */
  ghost predicate Plans(host: Host, catalog: Catalog, local: seq<Artifact>, roots: seq<string>, config: string, r: Report) {
    && var g := Gather(host, config, roots, catalog.resources);
    && g.Some? && r.config == config
    && r.plan == ById(local + g.value.removals)
    && r.shared == g.value.shared && r.missing == g.value.missing
    && r.approval == ApprovalHash(host, r)
  }

  /** A report can be built: nobody holds a lease, the local directories are known,
      the resources of the catalog are clear, and all that is to go can be planned. */
  ghost predicate Buildable(host: Host, catalog: Catalog, local: Option<seq<Artifact>>, roots: seq<string>, config: string, now: int) {
    && !Leased(catalog, config, now) && local.Some?
    && var g := Gather(host, config, roots, catalog.resources);
    && g.Some? && DistinctIds(ById(local.value + g.value.removals))
    && forall a | a in local.value + g.value.removals :: Plannable(a)
  }

  method BuildReport(host: Host, catalog: Catalog, local: Option<seq<Artifact>>, roots: seq<string>, config: string, now: int)
    returns (report: Option<Report>)
    ensures report.Some? <==> Buildable(host, catalog, local, roots, config, now)
    ensures report.Some? ==> Plans(host, catalog, local.value, roots, config, report.value)
  {
    var leased := CheckLease(catalog, config, now);
    if leased || local.None? { return None; }
    var artifacts, shared, missing := local.value, [], [];
    for i := 0 to |catalog.resources|
      invariant var g := Gather(host, config, roots, catalog.resources[..i]);
                g.Some? && artifacts == local.value + g.value.removals && shared == g.value.shared && missing == g.value.missing
    {
      GatherOne(host, config, roots, catalog.resources, i);
      match Judge(host, config, roots, catalog.resources[i]) {
        case Skip =>
        case Share(s) => shared := shared + [s];
        case Forget(m) => missing := missing + [m];
        case Remove(artifact) => artifacts := artifacts + [artifact];
        case Stop => return None;
      }
    }
    assert catalog.resources[..|catalog.resources|] == catalog.resources;
    var plan := ExplicitRemovalPlan(artifacts);
    if plan.None? { return None; }
    var r := Report(config, plan.value, shared, missing, "");
    report := Some(r.(approval := ApprovalHash(host, r)));
  }

  method CheckLease(catalog: Catalog, config: string, now: int) returns (leased: bool)
    ensures leased <==> Leased(catalog, config, now)
  {
    for i := 0 to |catalog.configs|
      invariant forall j | 0 <= j < i :: var c := catalog.configs[j]; !(c.id == config && c.leaseUntil.Some? && c.leaseUntil.value > now)
    {
      var c := catalog.configs[i];
      if c.id == config && c.leaseUntil.Some? && c.leaseUntil.value > now { return true; }
    }
    leased := false;
  }

  lemma GatherOne(host: Host, config: string, roots: seq<string>, resources: seq<Resource>, i: nat)
    requires i < |resources|
    ensures Front(resources[..i + 1]) == resources[..i] && Last(resources[..i + 1]) == resources[i]
    ensures Judge(host, config, roots, resources[i]).Stop? ==> Gather(host, config, roots, resources).None?
  {
    if Judge(host, config, roots, resources[i]).Stop? {
      GatherStops(host, config, roots, resources, i);
    }
  }

  lemma {:induction false} GatherStops(host: Host, config: string, roots: seq<string>, resources: seq<Resource>, i: nat)
    requires i < |resources| && Judge(host, config, roots, resources[i]).Stop?
    ensures Gather(host, config, roots, resources).None?
  {
    if i < |resources| - 1 { GatherStops(host, config, roots, Front(resources), i); }
  }

  // ------------------------------------------------------- what a plan removes

  lemma {:induction false} OthersAreForeign(references: seq<Reference>, config: string)
    ensures OtherConfigs(references, config) == [] <==> forall x | x in references :: x.config == config
    ensures forall c :: c in OtherConfigs(references, config) <==> c != config && exists x | x in references :: x.config == c
  {
    if references != [] {
      OthersAreForeign(Front(references), config);
      assert references == Front(references) + [Last(references)];
    }
  }

  lemma MentionsRefers(r: Resource, config: string)
    ensures Mentions(r.references, config) <==> Refers(r, config)
  {
    if Refers(r, config) {
      var x :| x in r.references && x.config == config;
      var i :| 0 <= i < |r.references| && r.references[i] == x;
    }
  }

  lemma {:induction false} VerdictIsGathered(host: Host, config: string, roots: seq<string>, resources: seq<Resource>, r: Resource)
    requires Gather(host, config, roots, resources).Some? && r in resources
    ensures var g := Gather(host, config, roots, resources).value;
            match Judge(host, config, roots, r)
            case Skip => true
            case Share(shared) => shared in g.shared
            case Forget(missing) => missing in g.missing
            case Remove(artifact) => artifact in g.removals
            case Stop => false
  {
    if r != Last(resources) {
      assert resources == Front(resources) + [Last(resources)];
      VerdictIsGathered(host, config, roots, Front(resources), r);
    }
  }

  lemma {:induction false} RemovalFrom(host: Host, config: string, roots: seq<string>, resources: seq<Resource>, a: Artifact) returns (r: Resource)
    requires Gather(host, config, roots, resources).Some? && a in Gather(host, config, roots, resources).value.removals
    ensures r in resources && Judge(host, config, roots, r) == Remove(a)
  {
    r := Last(resources);
    if Judge(host, config, roots, r) != Remove(a) {
      r := RemovalFrom(host, config, roots, Front(resources), a);
    }
  }

  lemma {:induction false} SharedFrom(host: Host, config: string, roots: seq<string>, resources: seq<Resource>, s: Shared) returns (r: Resource)
    requires Gather(host, config, roots, resources).Some? && s in Gather(host, config, roots, resources).value.shared
    ensures r in resources && Judge(host, config, roots, r) == Share(s)
  {
    r := Last(resources);
    if Judge(host, config, roots, r) != Share(s) {
      r := SharedFrom(host, config, roots, Front(resources), s);
    }
  }

  /** An artifact that stands for a resource of this configuration and no
      other, observed under its exact identity. */
  ghost predicate ExclusivelyOwned(host: Host, config: string, r: Resource, a: Artifact) {
    && RefersOnlyTo(r, config) && r.kind != CLAIM && a.id == EXTERNAL_ID + r.key
    && host.artifact(r).Some? && host.artifact(r).value.target == a.target && a.exact
    && host.observe(a.target) == Some(Observation(true, a.target))
  }

  lemma JudgedRemoval(host: Host, config: string, roots: seq<string>, r: Resource, a: Artifact)
    requires Judge(host, config, roots, r) == Remove(a)
    ensures ExclusivelyOwned(host, config, r, a)
  {
    OthersAreForeign(r.references, config);
    MentionsRefers(r, config);
  }

  /** Everything a plan removes is a local directory of the configuration or a
      resource that this configuration refers to and no other, still there
      under its exact identity. */
  lemma RemovalIsExclusive(host: Host, catalog: Catalog, local: seq<Artifact>, roots: seq<string>, config: string, report: Report, a: Artifact)
    requires Plans(host, catalog, local, roots, config, report) && a in report.plan && a !in local
    ensures exists r | r in catalog.resources :: ExclusivelyOwned(host, config, r, a)
  {
    ByIdPermutes(local + Gather(host, config, roots, catalog.resources).value.removals);
    var r := RemovalFrom(host, config, roots, catalog.resources, a);
    JudgedRemoval(host, config, roots, r, a);
  }

  lemma JudgedExclusive(host: Host, config: string, roots: seq<string>, r: Resource)
    requires RefersOnlyTo(r, config)
    ensures match Judge(host, config, roots, r)
            case Skip => r.kind == CLAIM || (host.artifact(r).Some? && InsideRoots(host, host.artifact(r).value.target, roots))
            case Share(_) => false
            case Forget(m) => m == Missing(r.key, r.kind, r.locator, r.identity)
            case Remove(a) => a.id == EXTERNAL_ID + r.key
            case Stop => true
  {
    OthersAreForeign(r.references, config);
    MentionsRefers(r, config);
  }

  /** Nothing that refers to the configuration alone is overlooked: it is
      removed, reported missing, a claim, or part of a local directory. */
  lemma ExclusiveResourceIsHandled(host: Host, catalog: Catalog, local: seq<Artifact>, roots: seq<string>, config: string,
                                   report: Report, r: Resource)
    requires Plans(host, catalog, local, roots, config, report)
    requires r in catalog.resources && RefersOnlyTo(r, config)
    ensures || Missing(r.key, r.kind, r.locator, r.identity) in report.missing
            || (exists a | a in report.plan :: a.id == EXTERNAL_ID + r.key)
            || r.kind == CLAIM
            || (host.artifact(r).Some? && InsideRoots(host, host.artifact(r).value.target, roots))
  {
    VerdictIsGathered(host, config, roots, catalog.resources, r);
    JudgedExclusive(host, config, roots, r);
    match Judge(host, config, roots, r)
    case Remove(a) =>
      ByIdPermutes(local + Gather(host, config, roots, catalog.resources).value.removals);
      assert a in report.plan;
    case _ =>
  }

  /** An entry of the shared list names exactly the other configurations. */
  ghost predicate SharedWith(config: string, r: Resource, s: Shared) {
    && Refers(r, config) && !RefersOnlyTo(r, config)
    && s.kind == r.kind && s.identity == r.identity && s.locator == r.locator
    && forall c :: c in s.referenced <==> c != config && Refers(r, c)
  }

  lemma JudgedShared(host: Host, config: string, roots: seq<string>, r: Resource)
    ensures Judge(host, config, roots, r).Share? <==> Refers(r, config) && !RefersOnlyTo(r, config)
    ensures Judge(host, config, roots, r).Share? ==> SharedWith(config, r, Judge(host, config, roots, r).shared)
  {
    OthersAreForeign(r.references, config);
    MentionsRefers(r, config);
    SortStringsMembers(OtherConfigs(r.references, config));
  }

  /** The shared list is exactly what this and other configurations refer to. */
  lemma SharedAreForeign(host: Host, catalog: Catalog, local: seq<Artifact>, roots: seq<string>, config: string, report: Report)
    requires Plans(host, catalog, local, roots, config, report)
    ensures forall s | s in report.shared :: exists r | r in catalog.resources :: SharedWith(config, r, s)
    ensures forall r | r in catalog.resources && Refers(r, config) && !RefersOnlyTo(r, config) ::
              exists s | s in report.shared :: SharedWith(config, r, s)
  {
    forall s | s in report.shared ensures exists r | r in catalog.resources :: SharedWith(config, r, s) {
      var r := SharedFrom(host, config, roots, catalog.resources, s);
      JudgedShared(host, config, roots, r);
    }
    forall r | r in catalog.resources && Refers(r, config) && !RefersOnlyTo(r, config)
      ensures exists s | s in report.shared :: SharedWith(config, r, s)
    {
      JudgedShared(host, config, roots, r);
      VerdictIsGathered(host, config, roots, catalog.resources, r);
    }
  }

  // ------------------------------------------------------- exactly which ones

  /** The file behind a local resource is gone. */
  predicate FileGone(host: Host, r: Resource) {
    LocalKind(r.kind) && host.absolute(r.locator) && host.gone(r.locator)
  }

  /** A resource of this configuration alone for which an exact artifact outside
      the local directories answers. */
  ghost predicate Judged(host: Host, config: string, roots: seq<string>, r: Resource) {
    && RefersOnlyTo(r, config) && r.kind != CLAIM && !FileGone(host, r)
    && host.artifact(r).Some? && host.artifact(r).value.exact && !InsideRoots(host, host.artifact(r).value.target, roots)
  }

  ghost predicate Removable(host: Host, config: string, roots: seq<string>, r: Resource) {
    && Judged(host, config, roots, r)
    && host.observe(host.artifact(r).value.target) == Some(Observation(true, host.artifact(r).value.target))
  }

  ghost predicate Vanished(host: Host, config: string, roots: seq<string>, r: Resource) {
    || (RefersOnlyTo(r, config) && r.kind != CLAIM && FileGone(host, r))
    || (Judged(host, config, roots, r)
        && var o := host.observe(host.artifact(r).value.target); o.Some? && !o.value.exists_)
  }

  /** Nothing can be said about it: no exact artifact answers, it cannot be
      observed, or something else stands in its place. */
  ghost predicate Unclear(host: Host, config: string, roots: seq<string>, r: Resource) {
    && RefersOnlyTo(r, config) && r.kind != CLAIM && !FileGone(host, r)
    && (host.artifact(r).None? || !host.artifact(r).value.exact
        || (Judged(host, config, roots, r) && !Removable(host, config, roots, r) && !Vanished(host, config, roots, r)))
  }

  lemma JudgedExactly(host: Host, config: string, roots: seq<string>, r: Resource)
    ensures var verdict := Judge(host, config, roots, r);
            && (verdict.Stop? <==> Unclear(host, config, roots, r))
            && (verdict.Remove? <==> Removable(host, config, roots, r))
            && (verdict.Remove? ==> verdict.artifact == host.artifact(r).value.(id := EXTERNAL_ID + r.key))
            && (verdict.Forget? <==> Vanished(host, config, roots, r))
            && (verdict.Forget? ==> verdict.missing == Missing(r.key, r.kind, r.locator, r.identity))
  {
    OthersAreForeign(r.references, config);
    MentionsRefers(r, config);
  }

  lemma {:induction false} MissingFrom(host: Host, config: string, roots: seq<string>, resources: seq<Resource>, m: Missing) returns (r: Resource)
    requires Gather(host, config, roots, resources).Some? && m in Gather(host, config, roots, resources).value.missing
    ensures r in resources && Judge(host, config, roots, r) == Forget(m)
  {
    r := Last(resources);
    if Judge(host, config, roots, r) != Forget(m) {
      r := MissingFrom(host, config, roots, Front(resources), m);
    }
  }

  /** The verdicts add up exactly if no resource is unclear. */
  lemma {:induction false} StopsExactly(host: Host, config: string, roots: seq<string>, resources: seq<Resource>)
    ensures Gather(host, config, roots, resources).None? <==> exists r | r in resources :: Unclear(host, config, roots, r)
  {
    if resources != [] {
      StopsExactly(host, config, roots, Front(resources));
      JudgedExactly(host, config, roots, Last(resources));
      assert resources == Front(resources) + [Last(resources)];
    }
  }

  /** `a` removes what stands behind `r`. */
  ghost predicate RemovedAs(host: Host, config: string, roots: seq<string>, r: Resource, a: Artifact) {
    Removable(host, config, roots, r) && a == host.artifact(r).value.(id := EXTERNAL_ID + r.key)
  }

  ghost predicate MissedAs(host: Host, config: string, roots: seq<string>, r: Resource, m: Missing) {
    Vanished(host, config, roots, r) && m == Missing(r.key, r.kind, r.locator, r.identity)
  }

  lemma RemovalsAreExact(host: Host, config: string, roots: seq<string>, resources: seq<Resource>, a: Artifact)
    requires Gather(host, config, roots, resources).Some?
    ensures a in Gather(host, config, roots, resources).value.removals
            <==> exists r | r in resources :: RemovedAs(host, config, roots, r, a)
  {
    if a in Gather(host, config, roots, resources).value.removals {
      var r := RemovalFrom(host, config, roots, resources, a);
      JudgedExactly(host, config, roots, r);
      assert RemovedAs(host, config, roots, r, a);
    } else if r :| r in resources && RemovedAs(host, config, roots, r, a) {
      JudgedExactly(host, config, roots, r);
      VerdictIsGathered(host, config, roots, resources, r);
    }
  }

  lemma MissingAreExact(host: Host, config: string, roots: seq<string>, resources: seq<Resource>, m: Missing)
    requires Gather(host, config, roots, resources).Some?
    ensures m in Gather(host, config, roots, resources).value.missing
            <==> exists r | r in resources :: MissedAs(host, config, roots, r, m)
  {
    if m in Gather(host, config, roots, resources).value.missing {
      var r := MissingFrom(host, config, roots, resources, m);
      JudgedExactly(host, config, roots, r);
      assert MissedAs(host, config, roots, r, m);
    } else if r :| r in resources && MissedAs(host, config, roots, r, m) {
      JudgedExactly(host, config, roots, r);
      VerdictIsGathered(host, config, roots, resources, r);
    }
  }

  /** A report removes, beside the local directories, exactly what is removable,
      and lists exactly what has vanished; and there is no report while anything
      is unclear. */
  lemma PlanIsExact(host: Host, catalog: Catalog, local: seq<Artifact>, roots: seq<string>, config: string, report: Report)
    requires Plans(host, catalog, local, roots, config, report)
    ensures forall r | r in catalog.resources :: !Unclear(host, config, roots, r)
    ensures forall a :: a in report.plan <==> a in local || exists r | r in catalog.resources :: RemovedAs(host, config, roots, r, a)
    ensures forall m :: m in report.missing <==> exists r | r in catalog.resources :: MissedAs(host, config, roots, r, m)
  {
    StopsExactly(host, config, roots, catalog.resources);
    ByIdPermutes(local + Gather(host, config, roots, catalog.resources).value.removals);
    forall a ensures a in report.plan <==> a in local || exists r | r in catalog.resources :: RemovedAs(host, config, roots, r, a) {
      RemovalsAreExact(host, config, roots, catalog.resources, a);
    }
    forall m ensures m in report.missing <==> exists r | r in catalog.resources :: MissedAs(host, config, roots, r, m) {
      MissingAreExact(host, config, roots, catalog.resources, m);
    }
  }

  // ------------------------------------------------------------------ approval

  /** The hash tells the texts of these two approvals apart. */
  ghost predicate TellsApart(host: Host, a: Report, b: Report) {
    var (s, t) := (Encoded(ApprovalOf(a)), Encoded(ApprovalOf(b)));
    host.hash(s) == host.hash(t) ==> s == t
  }

  /** A report that was printed with its own hash, of valid texts. */
  ghost predicate Shown(host: Host, r: Report) {
    r.approval == ApprovalHash(host, r) && ValidApproval(ApprovalOf(r))
  }

  /** Executes only under the approved hash: whichever report was shown with it,
      unless its text collides, exactly its removals are executed, in order. */
  method ExecuteApproved(host: Host, report: Report, approved: string) returns (executed: Option<seq<Removal>>)
    requires report.approval == ApprovalHash(host, report) && ValidApproval(ApprovalOf(report))
    ensures executed.Some? <==> TrimSpace(approved) == report.approval
    ensures forall shown: Report | executed.Some? && Shown(host, shown) && TellsApart(host, report, shown)
                                   && TrimSpace(approved) == shown.approval ::
              executed.value == Removals(shown.plan) && report.shared == shown.shared && report.missing == shown.missing
  {
    if TrimSpace(approved) != report.approval { return None; }
    executed := Some(Removals(report.plan));
    forall shown: Report | Shown(host, shown) && TellsApart(host, report, shown) && TrimSpace(approved) == shown.approval
      ensures ApprovalOf(report) == ApprovalOf(shown)
    {
      ApprovedIsShown(host, shown, report);
    }
  }

  /** Two reports carry one approval hash, unless their texts collide, exactly if
      they show the same removals in the same order, the same shared and the same
      missing list, up to bytes that are not valid UTF-8; for valid texts, exactly
      if they show the same. */
  lemma ApprovedIsShown(host: Host, shown: Report, run: Report)
    requires TellsApart(host, run, shown) && shown.approval == ApprovalHash(host, shown) && run.approval == ApprovalHash(host, run)
    ensures run.approval == shown.approval <==> BlurApproval(ApprovalOf(run)) == BlurApproval(ApprovalOf(shown))
    ensures ValidApproval(ApprovalOf(run)) && ValidApproval(ApprovalOf(shown)) ==>
              (run.approval == shown.approval <==> ApprovalOf(run) == ApprovalOf(shown))
  {
    SameTextExactly(ApprovalOf(run), ApprovalOf(shown));
    if ValidApproval(ApprovalOf(run)) && ValidApproval(ApprovalOf(shown)) {
      ValidApprovalStays(ApprovalOf(run));
      ValidApprovalStays(ApprovalOf(shown));
    }
  }

  /** However catalog and host changed in between: a plan that runs under the
      hash of a shown one removes the same artifacts in the same order. */
  lemma ApprovedPlanIsShown(shownHost: Host, shownCatalog: Catalog, shownLocal: seq<Artifact>, shownRoots: seq<string>, shown: Report,
                            host: Host, catalog: Catalog, local: seq<Artifact>, roots: seq<string>, run: Report, config: string)
    requires Plans(shownHost, shownCatalog, shownLocal, shownRoots, config, shown) && Plans(host, catalog, local, roots, config, run)
    requires shownHost.hash == host.hash && TellsApart(host, run, shown)
    requires ValidApproval(ApprovalOf(run)) && ValidApproval(ApprovalOf(shown)) && run.approval == shown.approval
    ensures run.shared == shown.shared && run.missing == shown.missing && |run.plan| == |shown.plan|
    ensures forall i | 0 <= i < |run.plan| :: run.plan[i].id == shown.plan[i].id && run.plan[i].target == shown.plan[i].target
  {
    ApprovedIsShown(host, shown, run);
    assert |Removals(run.plan)| == |run.plan| && |Removals(shown.plan)| == |shown.plan|;
    forall i | 0 <= i < |run.plan| ensures run.plan[i].id == shown.plan[i].id && run.plan[i].target == shown.plan[i].target {
      assert Removals(run.plan)[i] == Removals(shown.plan)[i];
    }
  }

  /** The report of a catalog whose only resource is gone. */
  function GoneReport(host: Host, config: string, locator: string): Report {
    var r := Report(config, [], [], [Missing("k", "provider-image", locator, "i")], "");
    r.(approval := ApprovalHash(host, r))
  }

  function GoneCatalog(config: string, locator: string): Catalog {
    Catalog([], [Resource("k", "provider-image", locator, "i", [Reference(config, "r")], true)])
  }

  lemma GoneIsPlanned(host: Host, config: string, locator: string)
    requires host.absolute(locator) && host.gone(locator)
    ensures Plans(host, GoneCatalog(config, locator), [], [], config, GoneReport(host, config, locator))
  {
    var resources := GoneCatalog(config, locator).resources;
    var r := resources[0];
    assert Front(resources) == [] && Last(resources) == r;
    assert Front(r.references) == [] && Last(r.references) == r.references[0] && r.references[0].config == config;
    assert OtherConfigs(Front(r.references), config) == [];
    assert OtherConfigs(r.references, config) == [] && Mentions(r.references, config);
    assert Judge(host, config, [], r) == Forget(Missing("k", "provider-image", locator, "i"));
    assert Gather(host, config, [], resources) == Some(Gathered([], [], [] + [Missing("k", "provider-image", locator, "i")]));
    assert ById([] + []) == [];
  }

  /** Two locators that differ in a byte that is not valid UTF-8 give two reports
      under one hash, whatever the hash. */
  lemma InvalidBytesShareHash(host: Host, config: string, path: string)
    requires forall c | Stray(c) :: host.absolute(path + [c]) && host.gone(path + [c])
    ensures var (a, b) := (path + ['\U{10ff00}'], path + ['\U{10ff01}']);
            && Plans(host, GoneCatalog(config, a), [], [], config, GoneReport(host, config, a))
            && Plans(host, GoneCatalog(config, b), [], [], config, GoneReport(host, config, b))
            && GoneReport(host, config, a).missing != GoneReport(host, config, b).missing
            && GoneReport(host, config, a).approval == GoneReport(host, config, b).approval
  {
    var a, b := path + ['\U{10ff00}'], path + ['\U{10ff01}'];
    GoneIsPlanned(host, config, a);
    GoneIsPlanned(host, config, b);
    assert a[|path|] != b[|path|];
    assert Blur(a) == Blur(b);
    var x, y := ApprovalOf(GoneReport(host, config, a)), ApprovalOf(GoneReport(host, config, b));
    assert BlurAll(BlurMissing, x.missing)[0] == BlurAll(BlurMissing, y.missing)[0];
    assert BlurAll(BlurMissing, x.missing) == BlurAll(BlurMissing, y.missing);
    SameTextExactly(x, y);
  }

  // ------------------------------------------------------------- finalization

  /** What was really removed: identities by target kind, and directories. */
  datatype Removed = Removed(identities: set<(string, string)>, directories: seq<string>)

  predicate Gone(removed: Removed, host: Host, r: Resource) {
    || ("external", r.identity) in removed.identities || ("file", r.identity) in removed.identities
    || ("directory", r.identity) in removed.identities || ("docker-image-tag", r.identity) in removed.identities
    || ("sandbox-template", r.identity) in removed.identities
    || (host.absolute(r.locator) && host.inside(r.locator, removed.directories))
  }

  predicate Dropped(host: Host, missing: set<string>, removed: Removed, r: Resource) {
    r.references == [] && (r.key in missing || Gone(removed, host, r))
  }

  function WithoutConfig(references: seq<Reference>, config: string): seq<Reference> {
    if references == [] then []
    else WithoutConfig(Front(references), config) + if Last(references).config == config then [] else [Last(references)]
  }

  function Released(r: Resource, config: string): Resource {
    var rest := WithoutConfig(r.references, config);
    r.(references := rest, current := r.current && rest != [])
  }

  function ReleasedAll(resources: seq<Resource>, config: string): seq<Resource> {
    seq(|resources|, i requires 0 <= i < |resources| => Released(resources[i], config))
  }

  function Kept(host: Host, missing: set<string>, removed: Removed, resources: seq<Resource>): seq<Resource> {
    if resources == [] then []
    else
      Kept(host, missing, removed, Front(resources))
      + if Dropped(host, missing, removed, Last(resources)) then [] else [Last(resources)]
  }

  lemma KeptStep(host: Host, missing: set<string>, removed: Removed, resources: seq<Resource>, i: nat)
    requires i < |resources|
    ensures Kept(host, missing, removed, resources[..i + 1])
            == Kept(host, missing, removed, resources[..i]) + if Dropped(host, missing, removed, resources[i]) then [] else [resources[i]]
  {
    assert Front(resources[..i + 1]) == resources[..i] && Last(resources[..i + 1]) == resources[i];
  }

  /** Both passes over the catalog, in the array they share: first every
      reference of the configuration goes, then the kept resources move down. */
  method FinalizeResources(host: Host, a: array<Resource>, config: string, missing: set<string>, removed: Removed) returns (n: nat)
    modifies a
    ensures n <= a.Length
    ensures a[..n] == Kept(host, missing, removed, ReleasedAll(old(a[..]), config))
  {
    ghost var was := a[..];
    for i := 0 to a.Length
      invariant forall j | 0 <= j < i :: a[j] == Released(was[j], config)
      invariant forall j | i <= j < a.Length :: a[j] == was[j]
    {
      a[i] := Released(a[i], config);
    }
    ghost var released := ReleasedAll(was, config);
    assert a[..] == released;
    n := 0;
    for i := 0 to a.Length
      invariant n <= i
      invariant a[..n] == Kept(host, missing, removed, released[..i])
      invariant forall j | i <= j < a.Length :: a[j] == released[j]
    {
      KeptStep(host, missing, removed, released, i);
      var r := a[i];
      ghost var kept := a[..n];
      if !Dropped(host, missing, removed, r) {
        a[n] := r;
        assert a[..n + 1] == kept + [r];
        n := n + 1;
      }
    }
    assert released[..a.Length] == released;
  }

  /** The references of one configuration over a whole catalog, in order. */
  function ReferencesIn(r: Resource, config: string): seq<(string, Reference)> {
    var own := OnlyConfig(r.references, config);
    seq(|own|, i requires 0 <= i < |own| => (r.key, own[i]))
  }

  function OnlyConfig(references: seq<Reference>, config: string): seq<Reference> {
    if references == [] then []
    else OnlyConfig(Front(references), config) + if Last(references).config == config then [Last(references)] else []
  }

  function ReferencesOf(resources: seq<Resource>, config: string): seq<(string, Reference)> {
    if resources == [] then [] else ReferencesOf(Front(resources), config) + ReferencesIn(Last(resources), config)
  }

  lemma {:induction false} OthersStay(references: seq<Reference>, config: string, other: string)
    ensures OnlyConfig(WithoutConfig(references, config), other) == if other == config then [] else OnlyConfig(references, other)
  {
    if references != [] {
      OthersStay(Front(references), config, other);
      var rest := WithoutConfig(Front(references), config);
      assert Front(rest + [Last(references)]) == rest;
      assert rest + [] == rest;
    }
  }

  lemma {:induction false} FinalizedReferences(host: Host, missing: set<string>, removed: Removed, resources: seq<Resource>,
                                               config: string, other: string)
    ensures ReferencesOf(Kept(host, missing, removed, ReleasedAll(resources, config)), other)
            == if other == config then [] else ReferencesOf(resources, other)
  {
    if resources != [] {
      var released := ReleasedAll(resources, config);
      assert Front(released) == ReleasedAll(Front(resources), config);
      FinalizedReferences(host, missing, removed, Front(resources), config, other);
      FinalizedLast(host, missing, removed, Kept(host, missing, removed, Front(released)), Last(resources), config, other);
    }
  }

  lemma FinalizedLast(host: Host, missing: set<string>, removed: Removed, before: seq<Resource>, r: Resource, config: string, other: string)
    ensures var released := Released(r, config);
            ReferencesOf(before + (if Dropped(host, missing, removed, released) then [] else [released]), other)
            == ReferencesOf(before, other) + (if other == config then [] else ReferencesIn(r, other))
  {
    OthersStay(r.references, config, other);
    assert Front(before + [Released(r, config)]) == before;
    assert before + [] == before;
  }

  /** Finalizing takes away every reference of the reset configuration and
      leaves all references of every other one, in their order. */
  lemma OtherConfigsAreUntouched(host: Host, missing: set<string>, removed: Removed, resources: seq<Resource>, config: string)
    ensures var after := Kept(host, missing, removed, ReleasedAll(resources, config));
            && ReferencesOf(after, config) == []
            && forall other | other != config :: ReferencesOf(after, other) == ReferencesOf(resources, other)
  {
    FinalizedReferences(host, missing, removed, resources, config, config);
    forall other | other != config
      ensures ReferencesOf(Kept(host, missing, removed, ReleasedAll(resources, config)), other) == ReferencesOf(resources, other)
    {
      FinalizedReferences(host, missing, removed, resources, config, other);
    }
  }

  /** `positions` picks `part` out of `whole` in order. */
  ghost predicate Picks(part: seq<Resource>, whole: seq<Resource>, positions: seq<nat>) {
    && |positions| == |part|
    && (forall i, j | 0 <= i < j < |positions| :: positions[i] < positions[j])
    && forall i | 0 <= i < |positions| :: positions[i] < |whole| && whole[positions[i]] == part[i]
  }

  /** The kept resources are the others in their order, and a resource is left
      out exactly if no configuration refers to it any more and it is missing,
      has a removed identity, or lies in a removed directory. */
  lemma {:induction false} KeptInOrder(host: Host, missing: set<string>, removed: Removed, resources: seq<Resource>)
    returns (positions: seq<nat>)
    ensures Picks(Kept(host, missing, removed, resources), resources, positions)
    ensures forall i | 0 <= i < |resources| ::
              i in positions <==> resources[i].references != [] || !(resources[i].key in missing || Gone(removed, host, resources[i]))
  {
    if resources == [] {
      positions := [];
    } else {
      positions := KeptInOrder(host, missing, removed, Front(resources));
      var last := |resources| - 1;
      assert last !in positions;
      if !Dropped(host, missing, removed, Last(resources)) { positions := positions + [last]; }
    }
  }

  /** Identity alone decides: an unreferenced resource that nobody removed is
      forgotten once any target with its identity was removed. */
  lemma SameIdentityIsForgotten(host: Host, kept: Resource, removedTarget: Target)
    requires kept.references == [] && kept.identity == removedTarget.identity && removedTarget.kind == "docker-image-tag"
    ensures Kept(host, {}, Removed({(removedTarget.kind, removedTarget.identity)}, []), [kept]) == []
  {
    assert Kept(host, {}, Removed({(removedTarget.kind, removedTarget.identity)}, []), Front([kept])) == [];
  }
}
