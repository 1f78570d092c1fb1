/** The stores that one Docker Sandboxes template activation moves together,
    and what each single store operation may do to them. */
module ActivationState {
  import opened Wrappers

  datatype Artifact = Artifact(reference: string, digest: string, cacheId: string, platform: string, rootDisk: string)

  datatype Distribution = LocalBuild | Prebuilt

  datatype Receipt = Receipt(schema: nat, distribution: Distribution, manifestHash: string, artifact: Artifact,
                             metadata: string, archiveSha: string, archiveBytes: nat, activatedAt: int,
                             evidence: seq<string>)

  /** Receipt identity: everything but the compact evidence listing. */
  predicate SameReceipt(left: Receipt, right: Receipt) {
    && left.schema == right.schema
    && left.distribution == right.distribution
    && left.manifestHash == right.manifestHash
    && left.artifact == right.artifact
    && left.metadata == right.metadata
    && left.archiveSha == right.archiveSha
    && left.archiveBytes == right.archiveBytes
    && left.activatedAt == right.activatedAt
  }

  function WithCacheId(r: Receipt, id: string): Receipt {
    r.(artifact := r.artifact.(cacheId := id))
  }

  datatype ReceiptFile = Missing | Unusable | Stored(receipt: Receipt)

  datatype Phase =
    | Prepared | Imported | Verified | AdmissionBlocked | Activated
    | ReadBack | ReceiptPublished | Committed | RolledBack

  datatype Journal = Journal(phase: Phase, candidate: Receipt, previous: Option<Receipt>, archivePath: string, imported: bool)

  // ---------------------------------------------------------------- catalog

  datatype Ref = Ref(config: string, role: string)

  datatype State = Current | Staging | Superseded | CleanupPending

  datatype Entry = Entry(locator: string, fingerprint: string, state: State, refs: set<Ref>)

  /** Sandbox-template resources of one backend, keyed by cache identity. */
  type Catalog = map<string, Entry>

  const PROVIDER_ARTIFACT := "provider-artifact"
  const BUILD_SOURCE := "build-source"

  /** One entry after a reference was taken away from it. */
  function Released(e: Entry, r: Ref): Entry {
    var refs := e.refs - {r};
    e.(refs := refs, state := if refs == {} && e.state == Current then Superseded else e.state)
  }

  function ReleaseRole(c: Catalog, r: Ref): Catalog {
    map k | k in c :: Released(c[k], r)
  }

  function RegisterCurrent(c: Catalog, r: Ref, a: Artifact): Catalog {
    var kept := if a.cacheId in c then c[a.cacheId].refs else {};
    ReleaseRole(c, r)[a.cacheId := Entry(a.reference, a.digest, Current, kept + {r})]
  }

  /** Custody of a rolled-back candidate; None is the conflict error. */
  function RecordSuperseded(c: Catalog, a: Artifact): Option<Catalog> {
    if a.cacheId == "" || a.reference == "" then None
    else if a.cacheId !in c then Some(c[a.cacheId := Entry(a.reference, a.digest, Superseded, {})])
    else if c[a.cacheId].locator != a.reference || c[a.cacheId].fingerprint != a.digest then None
    else if c[a.cacheId].refs != {} || c[a.cacheId].state == Current then Some(c)
    else Some(c[a.cacheId := Entry(a.reference, a.digest, Superseded, {})])
  }

  /** The catalog's current reference of `config` names exactly `a`. */
  ghost predicate CurrentIs(c: Catalog, config: string, a: Artifact) {
    && a.cacheId in c
    && c[a.cacheId].locator == a.reference
    && c[a.cacheId].fingerprint == a.digest
    && c[a.cacheId].state == Current
    && forall k | k in c :: Ref(config, PROVIDER_ARTIFACT) in c[k].refs <==> k == a.cacheId
  }

  ghost predicate NoCurrent(c: Catalog, config: string) {
    forall k | k in c :: Ref(config, PROVIDER_ARTIFACT) !in c[k].refs
  }

  /** The artifact has a catalog entry, and it is superseded unless some
      configuration still holds a reference to it. */
  ghost predicate Tracked(c: Catalog, a: Artifact) {
    && a.cacheId in c
    && c[a.cacheId].locator == a.reference
    && c[a.cacheId].fingerprint == a.digest
    && (c[a.cacheId].refs == {} ==> c[a.cacheId].state == Superseded)
  }

  // ------------------------------------------------------------------ world

  /** Journal, receipt and catalog are durable; the template cache belongs to
      the provider; the active template lives in the controller process. */
  datatype World = World(journal: Option<Journal>, receipt: ReceiptFile, catalog: Catalog,
                         cache: map<string, string>, active: Option<Artifact>)

  predicate InCache(cache: map<string, string>, a: Artifact) {
    a.cacheId != "" && a.reference in cache && cache[a.reference] == a.cacheId
  }

  ghost predicate ReceiptNames(file: ReceiptFile, choice: Option<Receipt>) {
    match choice
    case None => file.Missing?
    case Some(r) => file.Stored? && SameReceipt(file.receipt, r)
  }

  ghost predicate CatalogNames(c: Catalog, config: string, choice: Option<Receipt>) {
    match choice
    case None => NoCurrent(c, config)
    case Some(r) => CurrentIs(c, config, r.artifact)
  }

  function ActiveOf(choice: Option<Receipt>): Option<Artifact> {
    if choice.Some? then Some(choice.value.artifact) else None
  }

  /** Active template, receipt file and catalog all name the same choice. */
  ghost predicate Agrees(w: World, config: string, choice: Option<Receipt>) {
    && w.active == ActiveOf(choice)
    && ReceiptNames(w.receipt, choice)
    && CatalogNames(w.catalog, config, choice)
  }

  // ------------------------------------------------------ outside operations

  datatype Lookup = Found | NotFound | LookupFailed | LookupCrashed

  function Look(f: Fault, present: bool): Lookup {
    match End(f)
    case Done => if present then Found else NotFound
    case Failed => LookupFailed
    case Crashed => LookupCrashed
  }

  /** What a caller makes of a lookup that must find something. */
  function EndOf(v: Lookup): Outcome {
    match v
    case Found => Done
    case LookupCrashed => Crashed
    case _ => Failed
  }

  /** The operations of one rollback, in the order of the code. */
  datatype RollbackScript = RollbackScript(custody: Fault, verify: Fault, activate: Fault, receipt: Fault, register: Fault,
                                           release: Fault, supersede: Fault, persist: Fault, remove: Fault)

  /** The operations of one recovery. `admitted` stands for reading the journal
      and taking the lock, `readable` for reading the receipt, `id` for the cache
      identity that an import gets. */
  datatype RecoverScript = RecoverScript(admitted: Outcome, resolve: Fault, readable: bool, lookup: Fault, archiveOk: bool,
                                         load: Fault, id: string, verify: Fault, activate: Fault, register: Fault,
                                         release: Fault, remove: Fault, rollback: RollbackScript)

  const CALM_ROLLBACK := RollbackScript(Works, Works, Works, Works, Works, Works, Works, Works, Works)

  /** A recovery in which every operation works. */
  function CalmRecovery(id: string): RecoverScript {
    RecoverScript(Done, Works, true, Works, true, Works, id, Works, Works, Works, Works, Works, CALM_ROLLBACK)
  }

  /** The operations of one activation, in the order of the code. The checks of
      candidate evidence, previous evidence and archive are their outcomes;
      `finalized` with `metadata` and `evidence` is the deferred finalizer. */
  datatype ActivateScript = ActivateScript(evidenceOk: bool, readable: bool, previousOk: bool, journal: Fault,
                                           resolve: Fault, lookup: Fault, archiveOk: bool, load: Fault, id: string,
                                           resolveLoaded: Fault, imported: Fault, finalized: Outcome, metadata: string,
                                           evidence: seq<string>, completed: Fault, verify: Fault, verified: Fault,
                                           blocked: Fault, activate: Fault, activated: Fault, readBack: Fault,
                                           confirmed: Fault, receipt: Fault, published: Fault, register: Fault,
                                           release: Fault, committed: Fault, remove: Fault, rollback: RollbackScript)

  /** An activation in which every operation works. */
  function CalmActivation(id: string): ActivateScript {
    ActivateScript(true, true, true, Works, Works, Works, true, Works, id, Works, Works, Done, "", [], Works, Works, Works,
                   Works, Works, Works, Works, Works, Works, Works, Works, Works, Works, Works, CALM_ROLLBACK)
  }

  // --------------------------------------------------------- store lemmas

  lemma RegisterNames(c: Catalog, config: string, a: Artifact)
    ensures CurrentIs(RegisterCurrent(c, Ref(config, PROVIDER_ARTIFACT), a), config, a)
  {
    var out := RegisterCurrent(c, Ref(config, PROVIDER_ARTIFACT), a);
    forall k | k in out
      ensures Ref(config, PROVIDER_ARTIFACT) in out[k].refs <==> k == a.cacheId
    {
    }
  }

  lemma ReleaseNames(c: Catalog, config: string)
    ensures NoCurrent(ReleaseRole(c, Ref(config, PROVIDER_ARTIFACT)), config)
  {
  }

  /** Dropping another role keeps the current reference. */
  lemma ReleaseKeeps(c: Catalog, config: string, role: string, a: Artifact)
    requires role != PROVIDER_ARTIFACT && CurrentIs(c, config, a)
    ensures CurrentIs(ReleaseRole(c, Ref(config, role)), config, a)
  {
    assert Ref(config, PROVIDER_ARTIFACT) in c[a.cacheId].refs - {Ref(config, role)};
  }

  /** No entry is left current without a reference. */
  ghost predicate NoOrphans(c: Catalog) {
    forall k | k in c :: c[k].refs == {} ==> c[k].state != Current
  }

  /** Custody follows a release, which leaves no orphans. */
  lemma ReleaseHasNoOrphans(c: Catalog, r: Ref)
    ensures NoOrphans(ReleaseRole(c, r))
  {
  }

  lemma CustodyKeepsChoice(c: Catalog, config: string, choice: Option<Receipt>, a: Artifact)
    requires CatalogNames(c, config, choice) && NoOrphans(c) && RecordSuperseded(c, a).Some?
    ensures CatalogNames(RecordSuperseded(c, a).value, config, choice)
    ensures Tracked(RecordSuperseded(c, a).value, a)
  {
    var out := RecordSuperseded(c, a).value;
    if choice.Some? && a.cacheId == choice.value.artifact.cacheId {
      assert Ref(config, PROVIDER_ARTIFACT) in c[a.cacheId].refs;
    }
  }
}
