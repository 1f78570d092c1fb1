/** The activation transaction, its in-process rollback and its restart
    recovery, operation by operation, and what each of them may leave when any
    operation fails or loses the process. */
module Activation {
  import opened Wrappers
  import opened ActivationState

  function PhaseRank(p: Phase): nat {
    match p
    case Prepared => 0
    case Imported => 1
    case Verified => 2
    case AdmissionBlocked => 3
    case Activated => 4
    case ReadBack => 5
    case ReceiptPublished => 6
    case Committed => 7
    case RolledBack => 8
  }

  // ------------------------------------------------------ what each run does

  /** The candidate a run works with: the one it was given, with its cache
      identity filled in and, for a deferred prebuilt candidate, its evidence. */
  ghost predicate Resolves(given: Receipt, c: Receipt) {
    && c == given.(artifact := c.artifact, metadata := c.metadata, evidence := c.evidence)
    && c.artifact == given.artifact.(cacheId := c.artifact.cacheId)
    && (given.artifact.cacheId != "" ==> c.artifact == given.artifact)
  }

  /** The provider cache changed at most by importing `reference`. */
  ghost predicate CacheGrew(before: map<string, string>, reference: string, after: map<string, string>) {
    after == before || (reference in after && after == before[reference := after[reference]])
  }

  function PreviousOf(file: ReceiptFile): Option<Receipt> {
    if file.Stored? then Some(file.receipt) else None
  }

  /** The receipt as it was read: one that cannot be read counts as none. */
  function ReadOf(file: ReceiptFile, readable: bool): Option<Receipt> {
    if readable then PreviousOf(file) else None
  }

  /** What a journal may name as the previous receipt. */
  predicate MayPrecede(file: ReceiptFile, previous: Option<Receipt>) {
    previous == PreviousOf(file) || previous.None?
  }

  /** The catalog while the two transactions that make `a` current run. */
  ghost predicate Recording(before: Catalog, config: string, a: Artifact, after: Catalog) {
    var named := RegisterCurrent(before, Ref(config, PROVIDER_ARTIFACT), a);
    after == before || (a.cacheId != "" && after == named) || Recorded(before, config, a, after)
  }

  ghost predicate Recorded(before: Catalog, config: string, a: Artifact, after: Catalog) {
    && a.cacheId != ""
    && after == ReleaseRole(RegisterCurrent(before, Ref(config, PROVIDER_ARTIFACT), a), Ref(config, BUILD_SOURCE))
  }

  /** How far a run got, bounded by the rank of the phase on disk: an effect is
      there once its phase is journaled, and no effect is more than one phase
      ahead of the disk. */
  ghost predicate Reached(config: string, c: Receipt, rank: nat, w: World, w': World) {
    && rank <= 7
    && (w'.active == w.active || w'.active == Some(c.artifact))
    && (rank <= 2 ==> w'.active == w.active)
    && (rank >= 4 ==> w'.active == Some(c.artifact))
    && (w'.receipt == w.receipt || w'.receipt == Stored(c))
    && (rank <= 4 ==> w'.receipt == w.receipt)
    && (rank >= 6 ==> w'.receipt == Stored(c))
    && (rank <= 5 ==> w'.catalog == w.catalog)
    && (rank == 6 ==> Recording(w.catalog, config, c.artifact, w'.catalog))
    && (rank == 7 ==> Recorded(w.catalog, config, c.artifact, w'.catalog))
  }

  /** A forward run that stopped under its journal. */
  ghost predicate Forward(config: string, given: Receipt, archivePath: string, w: World, c: Receipt, w': World) {
    && w.journal.None?
    && Resolves(given, c)
    && CacheGrew(w.cache, given.artifact.reference, w'.cache)
    && w'.journal.Some?
    && var j := w'.journal.value;
    && MayPrecede(w.receipt, j.previous)
    && j.archivePath == archivePath
    && Resolves(given, j.candidate)
    && (w'.cache != w.cache ==> archivePath != "" && !InCache(w.cache, given.artifact))
    && (PhaseRank(j.phase) >= 2 ==> j.candidate == c && InCache(w'.cache, c.artifact))
    && Reached(config, c, PhaseRank(j.phase), w, w')
  }

  predicate NeedsCustody(cache: map<string, string>, j: Journal) {
    && (j.previous.None? || j.previous.value.artifact != j.candidate.artifact)
    && (j.imported || InCache(cache, j.candidate.artifact))
  }

  ghost predicate Restoring(before: Catalog, config: string, choice: Option<Receipt>, after: Catalog) {
    match choice
    case Some(p) => Recording(before, config, p.artifact, after)
    case None => after == before || after == ReleaseRole(before, Ref(config, PROVIDER_ARTIFACT))
  }

  /** The catalog while the previous ownership, then the custody, is recorded. */
  ghost predicate Recordkeeping(before: Catalog, config: string, j: Journal, after: Catalog) {
    || Restoring(before, config, j.previous, after)
    || exists mid :: Restoring(before, config, j.previous, mid) && RecordSuperseded(mid, j.candidate.artifact) == Some(after)
  }

  /** What a rollback of `j` may leave, whether it ended or was cut. */
  ghost predicate RollsBack(config: string, j: Journal, w: World, w': World, o: Outcome) {
    && w'.cache == w.cache
    && (w'.active == w.active || w'.active == ActiveOf(j.previous))
    && (w'.receipt == w.receipt
        || (w'.active == ActiveOf(j.previous) && w'.receipt == if j.previous.Some? then Stored(j.previous.value) else Missing))
    && Recordkeeping(w.catalog, config, j, w'.catalog)
    && (w'.catalog != w.catalog ==> w'.active == ActiveOf(j.previous) && ReceiptNames(w'.receipt, j.previous))
    && (w'.journal in {w.journal, Some(j), Some(j.(phase := RolledBack)), None})
    && (w'.journal.None? || MarkedBack(w, j, w') ==> Restored(config, j, w.cache, w'))
    && (o.Done? ==> w'.journal.None?)
  }

  /** The rollback has journaled that it is through. */
  ghost predicate MarkedBack(w: World, j: Journal, w': World) {
    w'.journal == Some(j.(phase := RolledBack)) && w'.journal != w.journal && j.phase != RolledBack
  }

  /** All stores name the previous receipt, and a candidate in need of custody
      is tracked. */
  ghost predicate Restored(config: string, j: Journal, cache: map<string, string>, w': World) {
    && (j.previous.Some? ==> InCache(cache, j.previous.value.artifact))
    && Agrees(w', config, j.previous)
    && (NeedsCustody(cache, j) ==> Tracked(w'.catalog, j.candidate.artifact))
  }

  /** The journal as recovery reads it: an imported candidate takes the cache
      identity the provider reports now. */
  function Reread(w: World, j: Journal): Journal {
    var reference := j.candidate.artifact.reference;
    if j.imported && reference in w.cache then j.(candidate := WithCacheId(j.candidate, w.cache[reference])) else j
  }

  /** The candidate's receipt is on disk. */
  predicate Published(w: World, j: Journal) {
    w.receipt.Stored? && SameReceipt(w.receipt.receipt, Reread(w, j).candidate)
  }

  ghost predicate Commits(config: string, j: Journal, w: World, w': World, o: Outcome) {
    && CacheGrew(w.cache, j.candidate.artifact.reference, w'.cache)
    && (w'.cache != w.cache ==> j.archivePath != "" && !InCache(w.cache, j.candidate.artifact))
    && (w'.active == w.active || w'.active == Some(j.candidate.artifact))
    && w'.receipt == w.receipt
    && Recording(w.catalog, config, j.candidate.artifact, w'.catalog)
    && (w'.catalog != w.catalog ==> w'.active == Some(j.candidate.artifact))
    && (w'.journal == w.journal || w'.journal.None?)
    && (w'.journal.None? ==> Agrees(w', config, Some(j.candidate)) && InCache(w'.cache, j.candidate.artifact))
    && (o.Done? ==> w'.journal.None?)
  }

  /** What a recovery may leave: it commits exactly if the candidate's receipt
      is on disk and could be read. */
  ghost predicate Recovers(config: string, readable: bool, w: World, w': World, o: Outcome) {
    if w.journal.None? then w' == w && o.Done?
    else
      var j := Reread(w, w.journal.value);
      || (w' == w && !o.Done?)
      || (if readable && Published(w, w.journal.value) then Commits(config, j, w, w', o) else RollsBack(config, j, w, w', o))
  }

  /** What an activation may leave: nothing, a journaled forward run, a
      completed one, or a forward run that its own rollback took back. */
  ghost predicate Activates(config: string, given: Receipt, archivePath: string, w: World, w': World, o: Outcome) {
    || (w' == w && !o.Done?)
    || (!o.Done? && exists c :: Forward(config, given, archivePath, w, c, w'))
    || (exists c :: CompletedBy(config, given, w, c, w'))
    || (!o.Done? && exists c, mid, j, o' :: Undone(config, given, archivePath, w, c, mid, j, w', o'))
  }

  ghost predicate CompletedBy(config: string, given: Receipt, w: World, c: Receipt, w': World) {
    && w.journal.None?
    && Resolves(given, c)
    && CacheGrew(w.cache, given.artifact.reference, w'.cache)
    && InCache(w'.cache, c.artifact)
    && w'.journal.None?
    && w'.active == Some(c.artifact)
    && w'.receipt == Stored(c)
    && Recorded(w.catalog, config, c.artifact, w'.catalog)
  }

  /** A forward run that activated its candidate and was then rolled back. */
  ghost predicate Undone(config: string, given: Receipt, archivePath: string, w: World, c: Receipt, mid: World, j: Journal, w': World, o: Outcome) {
    && Forward(config, given, archivePath, w, c, mid)
    && mid.active == Some(c.artifact)
    && PhaseRank(mid.journal.value.phase) >= 3
    && j.candidate == c
    && j.previous == mid.journal.value.previous
    && RollsBack(config, j, mid, w', o)
  }

  /** A run that has only journaled itself and looked after the cache. */
  ghost predicate Staged(given: Receipt, archivePath: string, w: World, c: Receipt, w': World) {
    && w.journal.None?
    && Resolves(given, c)
    && CacheGrew(w.cache, given.artifact.reference, w'.cache)
    && w' == w.(journal := w'.journal, cache := w'.cache)
    && w'.journal.Some?
    && var j := w'.journal.value;
    && MayPrecede(w.receipt, j.previous)
    && j.archivePath == archivePath
    && Resolves(given, j.candidate)
    && (w'.cache != w.cache ==> archivePath != "" && !InCache(w.cache, given.artifact))
    && PhaseRank(j.phase) <= 2
    && (j.phase == Verified ==> j.candidate == c && InCache(w'.cache, c.artifact))
  }

  lemma StagedIsForward(config: string, given: Receipt, archivePath: string, w: World, c: Receipt, w': World)
    requires Staged(given, archivePath, w, c, w')
    ensures Forward(config, given, archivePath, w, c, w')
  {
  }

  /** A journaled run that publishes from its verified phase is a forward run. */
  lemma ExtendsForward(config: string, given: Receipt, archivePath: string, w: World, c: Receipt, ready: World, w': World)
    requires Forward(config, given, archivePath, w, c, ready) && ready.journal.value.phase == Verified
    requires w'.cache == ready.cache && w'.journal.Some?
    requires w'.journal.value == ready.journal.value.(phase := w'.journal.value.phase)
    requires PhaseRank(w'.journal.value.phase) >= 2
    requires Reached(config, c, PhaseRank(w'.journal.value.phase), ready, w')
    ensures Forward(config, given, archivePath, w, c, w')
  {
  }

  // --------------------------------------------------------- exact executions

  function RestoredActive(w: World, j: Journal, s: RollbackScript): (World, Outcome) {
    if j.previous.Some? then
      var v := Look(s.verify, InCache(w.cache, j.previous.value.artifact));
      if !v.Found? then (w, EndOf(v))
      else if !s.activate.Works? then (w, End(s.activate))
      else (w.(active := Some(j.previous.value.artifact)), Done)
    else if w.active.None? then (w, Done)
    else if w.active != Some(j.candidate.artifact) then (w, Failed)
    else (w.(active := None), Done)
  }

  function Registered(config: string, w: World, a: Artifact, register: Fault, release: Fault): (World, Outcome) {
    var named := RegisterCurrent(w.catalog, Ref(config, PROVIDER_ARTIFACT), a);
    if a.cacheId == "" || a.reference == "" then (w, Failed)
    else if !register.Works? then (if Lands(register) then w.(catalog := named) else w, End(register))
    else (w.(catalog := if Lands(release) then ReleaseRole(named, Ref(config, BUILD_SOURCE)) else named), End(release))
  }

  function RestoredRecords(config: string, w: World, j: Journal, s: RollbackScript): (World, Outcome) {
    var file := if j.previous.Some? then Stored(j.previous.value) else Missing;
    var w1 := if Lands(s.receipt) then w.(receipt := file) else w;
    if !s.receipt.Works? then (w1, End(s.receipt))
    else if j.previous.Some? then Registered(config, w1, j.previous.value.artifact, s.register, s.release)
    else
      (if Lands(s.register) then w1.(catalog := ReleaseRole(w1.catalog, Ref(config, PROVIDER_ARTIFACT))) else w1, End(s.register))
  }

  function RestoredWithCustody(config: string, w: World, j: Journal, custody: bool, s: RollbackScript): (World, Outcome) {
    var (w1, o) := RestoredRecords(config, w, j, s);
    if !o.Done? || !custody then (w1, o)
    else
      var next := RecordSuperseded(w1.catalog, j.candidate.artifact);
      if next.None? then (w1, Failed)
      else (if Lands(s.supersede) then w1.(catalog := next.value) else w1, End(s.supersede))
  }

  /** Whether a rollback must take custody of the candidate, if it can tell. */
  function CustodyOf(w: World, j: Journal, s: RollbackScript): (Outcome, bool) {
    if j.previous.Some? && j.previous.value.artifact == j.candidate.artifact then (Done, false)
    else if j.imported || j.candidate.artifact.cacheId == "" then (Done, j.imported)
    else
      var v := Look(s.custody, InCache(w.cache, j.candidate.artifact));
      (if v.NotFound? then Done else EndOf(v), v.Found?)
  }

  function Persisted(w: World, j: Journal, f: Fault): World {
    if Lands(f) then w.(journal := Some(j)) else w
  }

  function Unjournaled(w: World, f: Fault): World {
    if Lands(f) then w.(journal := None) else w
  }

  /** The steps of a rollback up to the journal. */
  function StoresRestored(config: string, w: World, j: Journal, s: RollbackScript): (World, Outcome) {
    var (known, custody) := CustodyOf(w, j, s);
    if known.Crashed? then (w, Crashed)
    else
      var (w1, active) := RestoredActive(w, j, s);
      if active.Crashed? then (w1, Crashed)
      else if known.Done? && active.Done? then RestoredWithCustody(config, w1, j, custody, s)
      else (w1, Failed)
  }

  /** One rollback, operation by operation. */
  function RolledBackBy(config: string, w: World, j: Journal, s: RollbackScript): (World, Outcome) {
    var (w1, o) := StoresRestored(config, w, j, s);
    if o.Crashed? then (w1, Crashed)
    else if o.Failed? then (Persisted(w1, j, s.persist), if s.persist.Works? then Failed else End(s.persist))
    else
      var w2 := Persisted(w1, j.(phase := RolledBack), s.persist);
      if !s.persist.Works? then (w2, End(s.persist)) else (Unjournaled(w2, s.remove), End(s.remove))
  }

  /** The forward end of a recovery. */
  function CommittedBy(config: string, w: World, j: Journal, s: RecoverScript): (World, Outcome) {
    var a := j.candidate.artifact;
    var v := Look(s.lookup, InCache(w.cache, a));
    if v.LookupCrashed? || v.LookupFailed? then (w, EndOf(v))
    else if v.NotFound? && (j.archivePath == "" || !s.archiveOk) then (w, Failed)
    else
      var w1 := if v.NotFound? && Lands(s.load) then w.(cache := w.cache[a.reference := s.id]) else w;
      if v.NotFound? && !s.load.Works? then (w1, End(s.load))
      else
        var again := Look(s.verify, InCache(w1.cache, a));
        if !again.Found? then (w1, EndOf(again))
        else if !s.activate.Works? then (w1, End(s.activate))
        else
          var (w2, o) := Registered(config, w1.(active := Some(a)), a, s.register, s.release);
          if !o.Done? then (w2, o) else (Unjournaled(w2, s.remove), End(s.remove))
  }

  /** One recovery, operation by operation. */
  function RecoveredBy(config: string, w: World, s: RecoverScript): (World, Outcome) {
    if w.journal.None? then (w, Done)
    else if !s.admitted.Done? then (w, s.admitted)
    else
      var j := w.journal.value;
      var v := Look(s.resolve, j.candidate.artifact.reference in w.cache);
      if j.imported && (v.LookupCrashed? || v.LookupFailed?) then (w, EndOf(v))
      else if s.readable && Published(w, j) then CommittedBy(config, w, Reread(w, j), s)
      else RolledBackBy(config, w, Reread(w, j), s.rollback)
  }

  /** The candidate found in the cache or imported; then the outcome, the
      candidate with its cache identity, and the journal as it stands in memory. */
  function AcquiredBy(w: World, given: Receipt, archivePath: string, alreadyVerified: bool, prepared: Journal, s: ActivateScript)
    : (World, Outcome, Receipt, Journal)
  {
    var reference := given.artifact.reference;
    var unknown := given.artifact.cacheId == "";
    var v0 := if unknown then Look(s.resolve, reference in w.cache) else Found;
    var c := if unknown && v0.Found? then WithCacheId(given, w.cache[reference]) else given;
    var j := if unknown && v0.Found? then prepared.(candidate := c) else prepared;
    var v := if v0.Found? then Look(s.lookup, InCache(w.cache, c.artifact)) else v0;
    if alreadyVerified then (w, Done, given, prepared)
    else if !v.NotFound? then (w, EndOf(v), c, j)
    else if archivePath == "" || !s.archiveOk then (w, Failed, c, j)
    else
      var w1 := if Lands(s.load) then w.(cache := w.cache[reference := s.id]) else w;
      if !s.load.Works? then (w1, End(s.load), c, j)
      else
        var loaded := j.(imported := true);
        if c.artifact.cacheId != "" then (w1, Done, c, loaded)
        else
          var again := Look(s.resolveLoaded, true);
          if !again.Found? then (w1, EndOf(again), c, loaded)
          else (w1, Done, WithCacheId(c, s.id), loaded.(candidate := WithCacheId(c, s.id)))
  }

  /** The deferred evidence of an imported candidate, and its verification. */
  function VerifiedBy(w: World, c: Receipt, j: Journal, deferred: bool, s: ActivateScript): (World, Outcome, Receipt, Journal) {
    if deferred && !s.finalized.Done? then (w, s.finalized, c, j)
    else
      var c' := if deferred then c.(metadata := s.metadata, evidence := s.evidence) else c;
      var j' := if deferred then j.(candidate := c') else j;
      var w' := if deferred then Persisted(w, j', s.completed) else w;
      if deferred && !s.completed.Works? then (w', End(s.completed), c', j')
      else
        var v := Look(s.verify, InCache(w'.cache, c'.artifact));
        if !v.Found? then (w', EndOf(v), c', j')
        else (Persisted(w', j'.(phase := Verified), s.verified), End(s.verified), c', j'.(phase := Verified))
  }

  predicate Refused(w: World, given: Receipt, deferred: bool, s: ActivateScript) {
    || (if deferred then given.distribution != Prebuilt || given.artifact.cacheId != "" || given.evidence != [] else !s.evidenceOk)
    || w.journal.Some?
    || (s.readable && w.receipt.Stored? && !s.previousOk)
  }

  /** The candidate in the cache and verified, from the prepared phase on. */
  function ObtainedBy(w: World, given: Receipt, archivePath: string, alreadyVerified: bool, deferred: bool, j0: Journal, s: ActivateScript)
    : (World, Outcome, Receipt, Journal)
  {
    var (w1, o, c, j1) := AcquiredBy(w, given, archivePath, alreadyVerified, j0, s);
    var j2 := j1.(phase := Imported);
    var w2 := Persisted(w1, j2, s.imported);
    if !o.Done? then (w1, o, c, j1)
    else if !s.imported.Works? then (w2, End(s.imported), c, j2)
    else VerifiedBy(w2, c, j2, deferred, s)
  }

  /** The journaled preparation up to the verified phase. */
  function PreparedBy(w: World, given: Receipt, archivePath: string, alreadyVerified: bool, deferred: bool, s: ActivateScript)
    : (World, Outcome, Receipt, Journal)
  {
    var j0 := Journal(Prepared, given, ReadOf(w.receipt, s.readable), archivePath, false);
    var w1 := Persisted(w, j0, s.journal);
    if Refused(w, given, deferred, s) then (w, Failed, given, j0)
    else if !s.journal.Works? then (w1, End(s.journal), given, j0)
    else ObtainedBy(w1, given, archivePath, alreadyVerified, deferred, j0, s)
  }

  /** The candidate active and read back; whether it was activated. */
  function PublishedActive(w: World, c: Receipt, prepared: Journal, s: ActivateScript): (World, Outcome, bool, Journal) {
    var j1, j2, j3 := prepared.(phase := AdmissionBlocked), prepared.(phase := Activated), prepared.(phase := ReadBack);
    var w1 := Persisted(w, j1, s.blocked);
    if !s.blocked.Works? then (w1, End(s.blocked), false, j1)
    else if !s.activate.Works? then (w1, End(s.activate), false, j1)
    else
      var w2 := Persisted(w1.(active := Some(c.artifact)), j2, s.activated);
      var v := Look(s.readBack, InCache(w2.cache, c.artifact));
      if !s.activated.Works? then (w2, End(s.activated), true, j2)
      else if !v.Found? then (w2, EndOf(v), true, j2)
      else (Persisted(w2, j3, s.confirmed), End(s.confirmed), true, j3)
  }

  /** The receipt, then the catalog ownership. */
  function PublishedRecords(config: string, w: World, c: Receipt, readBack: Journal, s: ActivateScript): (World, Outcome, Journal) {
    var j1, j2 := readBack.(phase := ReceiptPublished), readBack.(phase := Committed);
    var w1 := if Lands(s.receipt) then w.(receipt := Stored(c)) else w;
    if !s.receipt.Works? then (w1, End(s.receipt), readBack)
    else
      var w2 := Persisted(w1, j1, s.published);
      if !s.published.Works? then (w2, End(s.published), j1)
      else
        var (w3, o) := Registered(config, w2, c.artifact, s.register, s.release);
        if !o.Done? then (w3, o, j1) else (Persisted(w3, j2, s.committed), End(s.committed), j2)
  }

  /** What follows the verified phase: publication, and its rollback if it
      fails after the activation. */
  function PublishedBy(config: string, w: World, c: Receipt, prepared: Journal, s: ActivateScript): (World, Outcome) {
    var (w2, o2, activated, j2) := PublishedActive(w, c, prepared, s);
    var (w3, o3, j3) := if o2.Done? then PublishedRecords(config, w2, c, j2, s) else (w2, o2, j2);
    if o3.Failed? && activated then
      var (w4, o4) := RolledBackBy(config, w3, j3, s.rollback);
      (w4, if o4.Crashed? then Crashed else Failed)
    else if !o3.Done? then (w3, o3)
    else (Unjournaled(w3, s.remove), End(s.remove))
  }

  /** One activation, operation by operation. */
  function ActivatedBy(config: string, w: World, given: Receipt, archivePath: string, alreadyVerified: bool, deferred: bool, s: ActivateScript)
    : (World, Outcome)
  {
    var (w1, o, c, j) := PreparedBy(w, given, archivePath, alreadyVerified, deferred, s);
    if !o.Done? then (w1, o) else PublishedBy(config, w1, c, j, s)
  }

  // ------------------------------------------------- what executions may leave

  lemma RegisteredRecords(config: string, w: World, a: Artifact, register: Fault, release: Fault)
    ensures var (w', o) := Registered(config, w, a, register, release);
            && w' == w.(catalog := w'.catalog)
            && Recording(w.catalog, config, a, w'.catalog)
            && (o.Done? ==> Recorded(w.catalog, config, a, w'.catalog))
  {
  }

  lemma RestoresActive(w: World, j: Journal, s: RollbackScript)
    ensures var (w', o) := RestoredActive(w, j, s);
            && w' == w.(active := w'.active)
            && (w'.active == w.active || w'.active == ActiveOf(j.previous))
            && (o.Done? ==> w'.active == ActiveOf(j.previous))
            && (o.Done? && j.previous.Some? ==> InCache(w.cache, j.previous.value.artifact))
  {
  }

  lemma RestoresRecords(config: string, w: World, j: Journal, s: RollbackScript)
    ensures var (w', o) := RestoredRecords(config, w, j, s);
            && w' == w.(receipt := w'.receipt, catalog := w'.catalog)
            && (w'.receipt == w.receipt || w'.receipt == if j.previous.Some? then Stored(j.previous.value) else Missing)
            && Restoring(w.catalog, config, j.previous, w'.catalog)
            && (w'.catalog != w.catalog ==> ReceiptNames(w'.receipt, j.previous))
            && (o.Done? ==> ReceiptNames(w'.receipt, j.previous) && CatalogNames(w'.catalog, config, j.previous) && NoOrphans(w'.catalog))
  {
    if j.previous.Some? {
      var p := j.previous.value;
      RegisteredRecords(config, w.(receipt := Stored(p)), p.artifact, s.register, s.release);
      RegisterNames(w.catalog, config, p.artifact);
      ReleaseKeeps(RegisterCurrent(w.catalog, Ref(config, PROVIDER_ARTIFACT), p.artifact), config, BUILD_SOURCE, p.artifact);
    } else {
      ReleaseNames(w.catalog, config);
    }
  }

  lemma RestoresWithCustody(config: string, w: World, j: Journal, custody: bool, s: RollbackScript)
    ensures var (w', o) := RestoredWithCustody(config, w, j, custody, s);
            && w' == w.(receipt := w'.receipt, catalog := w'.catalog)
            && (w'.receipt == w.receipt || w'.receipt == if j.previous.Some? then Stored(j.previous.value) else Missing)
            && Recordkeeping(w.catalog, config, j, w'.catalog)
            && (w'.catalog != w.catalog ==> ReceiptNames(w'.receipt, j.previous))
            && (o.Done? ==> ReceiptNames(w'.receipt, j.previous) && CatalogNames(w'.catalog, config, j.previous))
            && (o.Done? && custody ==> Tracked(w'.catalog, j.candidate.artifact))
  {
    RestoresRecords(config, w, j, s);
    var (w1, o) := RestoredRecords(config, w, j, s);
    if o.Done? && custody && RecordSuperseded(w1.catalog, j.candidate.artifact).Some? {
      CustodyKeepsChoice(w1.catalog, config, j.previous, j.candidate.artifact);
    }
  }

  /** The stores of a rollback before it touches the journal. */
  ghost predicate Restores(config: string, j: Journal, w: World, w': World, o: Outcome) {
    && w' == w.(active := w'.active, receipt := w'.receipt, catalog := w'.catalog)
    && (w'.active == w.active || w'.active == ActiveOf(j.previous))
    && (w'.receipt == w.receipt
        || (w'.active == ActiveOf(j.previous) && w'.receipt == if j.previous.Some? then Stored(j.previous.value) else Missing))
    && Recordkeeping(w.catalog, config, j, w'.catalog)
    && (w'.catalog != w.catalog ==> w'.active == ActiveOf(j.previous) && ReceiptNames(w'.receipt, j.previous))
    && (o.Done? ==> Restored(config, j, w.cache, w'))
  }

  lemma StoresRestore(config: string, w: World, j: Journal, s: RollbackScript)
    ensures var (w', o) := StoresRestored(config, w, j, s); Restores(config, j, w, w', o)
  {
    var (known, custody) := CustodyOf(w, j, s);
    assert known.Done? ==> (custody <==> NeedsCustody(w.cache, j));
    RestoresActive(w, j, s);
    RestoresWithCustody(config, RestoredActive(w, j, s).0, j, custody, s);
  }

  lemma RollbackRollsBack(config: string, w: World, j: Journal, s: RollbackScript)
    requires w.journal.Some?
    ensures var (w', o) := RolledBackBy(config, w, j, s); RollsBack(config, j, w, w', o)
  {
    StoresRestore(config, w, j, s);
  }

  lemma CommitCommits(config: string, w: World, j: Journal, s: RecoverScript)
    requires w.journal.Some? && w.receipt.Stored? && SameReceipt(w.receipt.receipt, j.candidate)
    ensures var (w', o) := CommittedBy(config, w, j, s); Commits(config, j, w, w', o)
  {
    var a := j.candidate.artifact;
    var v := Look(s.lookup, InCache(w.cache, a));
    var w1 := if v.NotFound? && Lands(s.load) then w.(cache := w.cache[a.reference := s.id]) else w;
    RegisteredRecords(config, w1.(active := Some(a)), a, s.register, s.release);
    RegisterNames(w.catalog, config, a);
    ReleaseKeeps(RegisterCurrent(w.catalog, Ref(config, PROVIDER_ARTIFACT), a), config, BUILD_SOURCE, a);
  }

  /** Every recovery, however its operations go, leaves what `Recovers` says. */
  lemma RecoveryRecovers(config: string, w: World, s: RecoverScript)
    ensures var (w', o) := RecoveredBy(config, w, s); Recovers(config, s.readable, w, w', o)
  {
    if w.journal.Some? {
      var j := Reread(w, w.journal.value);
      RollbackRollsBack(config, w, j, s.rollback);
      if Published(w, w.journal.value) { CommitCommits(config, w, j, s); }
    }
  }

  lemma AcquireResolves(w: World, given: Receipt, archivePath: string, alreadyVerified: bool, j0: Journal, s: ActivateScript)
    requires j0.candidate == given
    ensures var (w', o, c, j) := AcquiredBy(w, given, archivePath, alreadyVerified, j0, s);
            && w' == w.(cache := w'.cache)
            && CacheGrew(w.cache, given.artifact.reference, w'.cache)
            && Resolves(given, c) && c == WithCacheId(given, c.artifact.cacheId)
            && (w'.cache != w.cache ==> archivePath != "" && !InCache(w.cache, given.artifact))
            && j == j0.(candidate := c, imported := j.imported)
  {
  }

  lemma VerifyVerifies(w: World, imported: Receipt, inMemory: Journal, deferred: bool, s: ActivateScript)
    requires w.journal == Some(inMemory) && inMemory.phase == Imported && inMemory.candidate == imported
    ensures var (w', o, c, j) := VerifiedBy(w, imported, inMemory, deferred, s);
            && w' == w.(journal := w'.journal)
            && c == imported.(metadata := c.metadata, evidence := c.evidence)
            && w'.journal.Some?
            && w'.journal.value == inMemory.(phase := w'.journal.value.phase, candidate := w'.journal.value.candidate)
            && w'.journal.value.candidate in {imported, c} && w'.journal.value.phase in {Imported, Verified}
            && (w'.journal.value.phase == Verified ==> w'.journal.value.candidate == c && InCache(w'.cache, c.artifact))
            && (o.Done? ==> w'.journal == Some(j) && j.phase == Verified && j.candidate == c)
  {
  }

  /** What a run from its prepared phase has done once the candidate is found,
      or on the way there. */
  ghost predicate Obtains(given: Receipt, archivePath: string, j0: Journal, w: World, w': World, o: Outcome, c: Receipt, j: Journal) {
    && w' == w.(journal := w'.journal, cache := w'.cache)
    && Resolves(given, c) && CacheGrew(w.cache, given.artifact.reference, w'.cache)
    && (w'.cache != w.cache ==> archivePath != "" && !InCache(w.cache, given.artifact))
    && w'.journal.Some? && PhaseRank(w'.journal.value.phase) <= 2
    && w'.journal.value.previous == j0.previous && w'.journal.value.archivePath == j0.archivePath
    && Resolves(given, w'.journal.value.candidate)
    && (w'.journal.value.phase == Verified ==> w'.journal.value.candidate == c && InCache(w'.cache, c.artifact))
    && (o.Done? ==> w'.journal == Some(j) && j.phase == Verified && j.candidate == c && j.previous == j0.previous)
  }

  lemma ObtainObtains(w: World, given: Receipt, archivePath: string, alreadyVerified: bool, deferred: bool, j0: Journal, s: ActivateScript)
    requires w.journal == Some(j0) && j0.phase == Prepared && j0.candidate == given
    ensures var (w', o, c, j) := ObtainedBy(w, given, archivePath, alreadyVerified, deferred, j0, s);
            Obtains(given, archivePath, j0, w, w', o, c, j)
  {
    AcquireResolves(w, given, archivePath, alreadyVerified, j0, s);
    var (w1, o, c, j1) := AcquiredBy(w, given, archivePath, alreadyVerified, j0, s);
    var j2 := j1.(phase := Imported);
    if o.Done? && s.imported.Works? {
      VerifyVerifies(Persisted(w1, j2, s.imported), c, j2, deferred, s);
    }
  }

  lemma PrepareStages(w: World, given: Receipt, archivePath: string, alreadyVerified: bool, deferred: bool, s: ActivateScript)
    ensures var (w', o, c, j) := PreparedBy(w, given, archivePath, alreadyVerified, deferred, s);
            && (w' == w || Staged(given, archivePath, w, c, w'))
            && (o.Done? ==> Staged(given, archivePath, w, c, w') && w'.journal == Some(j) && j.phase == Verified && j.candidate == c)
  {
    var j0 := Journal(Prepared, given, ReadOf(w.receipt, s.readable), archivePath, false);
    var w1 := Persisted(w, j0, s.journal);
    if !Refused(w, given, deferred, s) && s.journal.Works? {
      ObtainObtains(w1, given, archivePath, alreadyVerified, deferred, j0, s);
    }
  }

  lemma PublishActiveReaches(config: string, w: World, c: Receipt, prepared: Journal, s: ActivateScript)
    requires w.journal == Some(prepared) && prepared.phase == Verified && prepared.candidate == c
    ensures var (w', o, activated, j) := PublishedActive(w, c, prepared, s);
            && w' == w.(journal := w'.journal, active := w'.active)
            && j == prepared.(phase := j.phase)
            && w'.journal.Some? && w'.journal.value == prepared.(phase := w'.journal.value.phase)
            && (activated ==> w'.active == Some(c.artifact) && PhaseRank(w'.journal.value.phase) >= 3)
            && Reached(config, c, PhaseRank(w'.journal.value.phase), w, w')
            && 2 <= PhaseRank(w'.journal.value.phase) <= 5
            && (o.Done? ==> activated && w'.journal == Some(j) && j.phase == ReadBack)
  {
  }

  lemma PublishRecordsReaches(config: string, w: World, c: Receipt, readBack: Journal, s: ActivateScript)
    requires w.journal == Some(readBack) && readBack.phase == ReadBack && w.active == Some(c.artifact)
    ensures var (w', o, j) := PublishedRecords(config, w, c, readBack, s);
            && w' == w.(journal := w'.journal, receipt := w'.receipt, catalog := w'.catalog)
            && j == readBack.(phase := j.phase)
            && w'.journal.Some? && w'.journal.value == readBack.(phase := w'.journal.value.phase)
            && Reached(config, c, PhaseRank(w'.journal.value.phase), w, w')
            && 5 <= PhaseRank(w'.journal.value.phase)
            && (o.Done? ==> w'.journal == Some(j) && j.phase == Committed)
  {
    var w1 := if Lands(s.receipt) then w.(receipt := Stored(c)) else w;
    var w2 := Persisted(w1, readBack.(phase := ReceiptPublished), s.published);
    RegisteredRecords(config, w2, c.artifact, s.register, s.release);
  }

  /** What follows the verified phase: a forward run `mid`, possibly completed
      or rolled back by `back`. */
  ghost predicate Publishes(config: string, c: Receipt, prepared: Journal, w: World, mid: World, back: Option<Journal>, w': World, o: Outcome) {
    && mid.journal.Some? && mid.journal.value == prepared.(phase := mid.journal.value.phase) && mid.cache == w.cache
    && PhaseRank(mid.journal.value.phase) >= 2
    && Reached(config, c, PhaseRank(mid.journal.value.phase), w, mid)
    && (back.Some? ==>
          && !o.Done? && mid.active == Some(c.artifact) && PhaseRank(mid.journal.value.phase) >= 3
          && back.value.candidate == c && back.value.previous == prepared.previous
          && exists o' :: RollsBack(config, back.value, mid, w', o'))
    && (back.None? && w'.journal.Some? ==> w' == mid && !o.Done?)
    && (back.None? && w'.journal.None? ==> w' == mid.(journal := None) && mid.journal.value.phase == Committed)
  }

  lemma PublishPublishes(config: string, w: World, c: Receipt, prepared: Journal, s: ActivateScript) returns (mid: World, back: Option<Journal>)
    requires w.journal == Some(prepared) && prepared.phase == Verified && prepared.candidate == c
    ensures var (w', o) := PublishedBy(config, w, c, prepared, s); Publishes(config, c, prepared, w, mid, back, w', o)
  {
    var (w2, o2, activated, j2) := PublishedActive(w, c, prepared, s);
    PublishActiveReaches(config, w, c, prepared, s);
    var (w3, o3, j3) := if o2.Done? then PublishedRecords(config, w2, c, j2, s) else (w2, o2, j2);
    if o2.Done? { PublishRecordsReaches(config, w2, c, j2, s); }
    mid, back := w3, None;
    if o3.Failed? && activated {
      back := Some(j3);
      RollbackRollsBack(config, w3, j3, s.rollback);
    }
  }

  /** Every activation, however its operations go, leaves what `Activates` says. */
  lemma ActivationActivates(config: string, w: World, given: Receipt, archivePath: string, alreadyVerified: bool, deferred: bool, s: ActivateScript)
    ensures var (w', o) := ActivatedBy(config, w, given, archivePath, alreadyVerified, deferred, s);
            Activates(config, given, archivePath, w, w', o)
  {
    var (ready, o1, c, j) := PreparedBy(w, given, archivePath, alreadyVerified, deferred, s);
    PrepareStages(w, given, archivePath, alreadyVerified, deferred, s);
    if ready != w { StagedIsForward(config, given, archivePath, w, c, ready); }
    if o1.Done? {
      var (w', o) := PublishedBy(config, ready, c, j, s);
      var mid, back := PublishPublishes(config, ready, c, j, s);
      ExtendsForward(config, given, archivePath, w, c, ready, mid);
      if back.Some? {
        var o' :| RollsBack(config, back.value, mid, w', o');
        assert Undone(config, given, archivePath, w, c, mid, back.value, w', o');
      } else if w'.journal.None? {
        assert CompletedBy(config, given, w, c, w');
      }
    }
  }
}
