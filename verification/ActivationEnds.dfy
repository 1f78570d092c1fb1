/** When activations, rollbacks and recoveries come to their end, told from the
    state they start in and the operations that work. */
module ActivationEnds {
  import opened Wrappers
  import opened ActivationState
  import opened Activation
  import opened ActivationRuns
  import opened ActivationRecovery

  // ---------------------------------------------------------------- recovery

  /** What a recovery that goes forward needs: the candidate in the cache, or an
      archive whose import gives it the identity it had, and every operation on
      the way. */
  predicate CommitWorks(w: World, j: Journal, s: RecoverScript) {
    var a := j.candidate.artifact;
    && s.lookup.Works? && s.verify.Works? && s.activate.Works? && s.register.Works? && s.release.Works? && s.remove.Works?
    && a.reference != ""
    && (InCache(w.cache, a)
        || (j.archivePath != "" && s.archiveOk && s.load.Works? && a.cacheId != "" && s.id == a.cacheId))
  }

  lemma CommitEndsExactly(config: string, w: World, j: Journal, s: RecoverScript)
    ensures CommittedBy(config, w, j, s).1.Done? <==> CommitWorks(w, j, s)
  {
  }

  /** A recovery ends exactly if there is nothing to recover, or it gets to the
      receipt and the side it then takes has what it needs. */
  lemma RecoveryEndsExactly(config: string, w: World, s: RecoverScript)
    ensures RecoveredBy(config, w, s).1.Done?
            <==> w.journal.None?
                 || (&& s.admitted.Done? && (w.journal.value.imported ==> s.resolve.Works?)
                     && var j := Reread(w, w.journal.value);
                        if s.readable && Published(w, w.journal.value) then CommitWorks(w, j, s)
                        else RollbackWorks(config, w, j, s.rollback))
    ensures RecoveredBy(config, w, s).1.Done? ==> RecoveredBy(config, w, s).0.journal.None?
  {
    RecoveryRecovers(config, w, s);
    if w.journal.Some? {
      var j := Reread(w, w.journal.value);
      CommitEndsExactly(config, w, j, s);
      RollbackEndsExactly(config, w, j, s.rollback);
    }
  }

  /** A published candidate is committed by a recovery in which every operation
      works exactly if it is cached, or its archive is still named and imports
      under the identity it had; all stores then name it. */
  lemma CommitCanFinish(config: string, w: World, id: string)
    requires w.journal.Some? && Published(w, w.journal.value) && w.journal.value.candidate.artifact.reference != ""
    ensures var (j, (end, o)) := (Reread(w, w.journal.value), RecoveredBy(config, w, CalmRecovery(id)));
            && (o.Done? <==> InCache(w.cache, j.candidate.artifact)
                             || (j.archivePath != "" && id == j.candidate.artifact.cacheId != ""))
            && (o.Done? ==> end.journal.None? && Agrees(end, config, Some(j.candidate)))
  {
    RecoveryEndsExactly(config, w, CalmRecovery(id));
    if RecoveredBy(config, w, CalmRecovery(id)).1.Done? { RecoveryEnds(config, w, CalmRecovery(id)); }
  }

  // -------------------------------------------------------------- preparation

  /** The candidate with the cache identity that its reference has by now. */
  function Identified(cache: map<string, string>, given: Receipt): Receipt {
    var a := given.artifact;
    if a.cacheId == "" && a.reference in cache then WithCacheId(given, cache[a.reference]) else given
  }

  /** The candidate must be imported: it is not in the cache. */
  predicate Absent(cache: map<string, string>, given: Receipt, alreadyVerified: bool) {
    !alreadyVerified && !InCache(cache, Identified(cache, given).artifact)
  }

  /** The lookups before an import work. */
  predicate LooksUp(cache: map<string, string>, given: Receipt, s: ActivateScript) {
    && (given.artifact.cacheId == "" ==> s.resolve.Works?)
    && (given.artifact.cacheId != "" || given.artifact.reference in cache ==> s.lookup.Works?)
  }

  /** The archive can be imported, and gives the candidate the identity it has or,
      if it has none, one that can be read. */
  predicate Imports(cache: map<string, string>, given: Receipt, archivePath: string, s: ActivateScript) {
    var id := Identified(cache, given).artifact.cacheId;
    archivePath != "" && s.archiveOk && s.load.Works? && if id == "" then s.resolveLoaded.Works? && s.id != "" else s.id == id
  }

  predicate Acquires(cache: map<string, string>, given: Receipt, archivePath: string, alreadyVerified: bool, s: ActivateScript) {
    alreadyVerified || (LooksUp(cache, given, s) && (Absent(cache, given, false) ==> Imports(cache, given, archivePath, s)))
  }

  /** It ends up in the cache, verified and journaled. */
  predicate Secures(cache: map<string, string>, given: Receipt, archivePath: string, alreadyVerified: bool, deferred: bool, s: ActivateScript) {
    && (alreadyVerified ==> InCache(cache, given.artifact))
    && Acquires(cache, given, archivePath, alreadyVerified, s)
    && s.imported.Works? && (deferred ==> s.finalized.Done? && s.completed.Works?) && s.verify.Works? && s.verified.Works?
  }

  predicate Prepares(w: World, given: Receipt, archivePath: string, alreadyVerified: bool, deferred: bool, s: ActivateScript) {
    !Refused(w, given, deferred, s) && s.journal.Works? && Secures(w.cache, given, archivePath, alreadyVerified, deferred, s)
  }

  /** The candidate with the identity under which it is cached in the end. */
  function Located(cache: map<string, string>, given: Receipt, alreadyVerified: bool, s: ActivateScript): Receipt {
    var found := Identified(cache, given);
    if alreadyVerified then given
    else if found.artifact.cacheId == "" then WithCacheId(found, s.id)
    else found
  }

  /** The candidate that is then published. */
  function Candidate(cache: map<string, string>, given: Receipt, alreadyVerified: bool, deferred: bool, s: ActivateScript): Receipt {
    var c := Located(cache, given, alreadyVerified, s);
    if deferred then c.(metadata := s.metadata, evidence := s.evidence) else c
  }

  function CacheAfter(cache: map<string, string>, given: Receipt, alreadyVerified: bool, s: ActivateScript): map<string, string> {
    if Absent(cache, given, alreadyVerified) then cache[given.artifact.reference := s.id] else cache
  }

  lemma AcquiresExactly(w: World, given: Receipt, archivePath: string, alreadyVerified: bool, j0: Journal, s: ActivateScript)
    requires j0.candidate == given && !j0.imported
    ensures var (w', o, c, j) := AcquiredBy(w, given, archivePath, alreadyVerified, j0, s);
            && (Acquires(w.cache, given, archivePath, alreadyVerified, s) ==> o.Done?)
            && (o.Done? ==>
                  && w' == w.(cache := CacheAfter(w.cache, given, alreadyVerified, s))
                  && c == Located(w.cache, given, alreadyVerified, s)
                  && j == j0.(candidate := c, imported := Absent(w.cache, given, alreadyVerified))
                  && (InCache(w'.cache, c.artifact)
                      <==> if alreadyVerified then InCache(w.cache, given.artifact) else Acquires(w.cache, given, archivePath, false, s)))
  {
  }

  lemma VerifiesExactly(w: World, c: Receipt, j: Journal, deferred: bool, s: ActivateScript)
    requires j.candidate == c
    ensures var (w', o, c', j') := VerifiedBy(w, c, j, deferred, s);
            && (o.Done? <==> (deferred ==> s.finalized.Done? && s.completed.Works?) && s.verify.Works? && InCache(w.cache, c.artifact)
                             && s.verified.Works?)
            && (o.Done? ==>
                  && c' == (if deferred then c.(metadata := s.metadata, evidence := s.evidence) else c)
                  && j' == j.(phase := Verified, candidate := c') && w' == w.(journal := Some(j')))
  {
  }

  lemma ObtainsExactly(w: World, given: Receipt, archivePath: string, alreadyVerified: bool, deferred: bool, j0: Journal, s: ActivateScript)
    requires j0.candidate == given && !j0.imported
    ensures var (w', o, c, j) := ObtainedBy(w, given, archivePath, alreadyVerified, deferred, j0, s);
            && (o.Done? <==> Secures(w.cache, given, archivePath, alreadyVerified, deferred, s))
            && (o.Done? ==>
                  && c == Candidate(w.cache, given, alreadyVerified, deferred, s) && InCache(w'.cache, c.artifact)
                  && j == j0.(phase := Verified, candidate := c, imported := Absent(w.cache, given, alreadyVerified))
                  && w' == w.(journal := Some(j), cache := CacheAfter(w.cache, given, alreadyVerified, s)))
  {
    AcquiresExactly(w, given, archivePath, alreadyVerified, j0, s);
    var (w1, o, c, j1) := AcquiredBy(w, given, archivePath, alreadyVerified, j0, s);
    var j2 := j1.(phase := Imported);
    if o.Done? { VerifiesExactly(Persisted(w1, j2, s.imported), c, j2, deferred, s); }
  }

  /** A preparation ends exactly if the run is not refused and finds the candidate
      in the cache or imports it there; it then has journaled the candidate as
      cached, the receipt it read, and whether there was an import. */
  lemma PreparesExactly(w: World, given: Receipt, archivePath: string, alreadyVerified: bool, deferred: bool, s: ActivateScript)
    ensures var (w', o, c, j) := PreparedBy(w, given, archivePath, alreadyVerified, deferred, s);
            && (o.Done? <==> Prepares(w, given, archivePath, alreadyVerified, deferred, s))
            && (o.Done? ==>
                  && c == Candidate(w.cache, given, alreadyVerified, deferred, s) && InCache(w'.cache, c.artifact)
                  && j == Journal(Verified, c, ReadOf(w.receipt, s.readable), archivePath, Absent(w.cache, given, alreadyVerified))
                  && w' == w.(journal := Some(j), cache := CacheAfter(w.cache, given, alreadyVerified, s)))
  {
    var j0 := Journal(Prepared, given, ReadOf(w.receipt, s.readable), archivePath, false);
    if !Refused(w, given, deferred, s) && s.journal.Works? {
      ObtainsExactly(Persisted(w, j0, s.journal), given, archivePath, alreadyVerified, deferred, j0, s);
    }
  }

  // -------------------------------------------------------------- publication

  /** Every operation from the verified candidate to the removed journal works. */
  predicate Publishes(s: ActivateScript) {
    && s.blocked.Works? && s.activate.Works? && s.activated.Works? && s.readBack.Works? && s.confirmed.Works?
    && s.receipt.Works? && s.published.Works? && s.register.Works? && s.release.Works? && s.committed.Works? && s.remove.Works?
  }

  /** All stores once `c` is published. */
  function Completed(config: string, w: World, c: Receipt, cache: map<string, string>): World {
    var named := RegisterCurrent(w.catalog, Ref(config, PROVIDER_ARTIFACT), c.artifact);
    World(None, Stored(c), ReleaseRole(named, Ref(config, BUILD_SOURCE)), cache, Some(c.artifact))
  }

  lemma CompletedAgrees(config: string, w: World, c: Receipt, cache: map<string, string>)
    ensures Agrees(Completed(config, w, c, cache), config, Some(c))
  {
    RegisterNames(w.catalog, config, c.artifact);
    ReleaseKeeps(RegisterCurrent(w.catalog, Ref(config, PROVIDER_ARTIFACT), c.artifact), config, BUILD_SOURCE, c.artifact);
  }

  lemma PublicationEndsExactly(config: string, w: World, c: Receipt, prepared: Journal, s: ActivateScript)
    requires w.journal == Some(prepared) && prepared.candidate == c && InCache(w.cache, c.artifact)
    ensures var (w', o) := PublishedBy(config, w, c, prepared, s);
            && (o.Done? <==> Publishes(s) && c.artifact.reference != "")
            && (o.Done? ==> w' == Completed(config, w, c, w.cache))
  {
  }

  /** However its operations go, an activation ends in success exactly if it is
      not refused, the candidate is in the cache or can be imported there, and
      every operation that it comes to works. The journal is then gone, and
      template, receipt and catalog name the candidate. */
  lemma ActivationEndsExactly(config: string, w: World, given: Receipt, archivePath: string, alreadyVerified: bool, deferred: bool, s: ActivateScript)
    ensures var (end, o) := ActivatedBy(config, w, given, archivePath, alreadyVerified, deferred, s);
            && (o.Done? <==> Prepares(w, given, archivePath, alreadyVerified, deferred, s) && Publishes(s) && given.artifact.reference != "")
            && (o.Done? ==>
                  var c := Candidate(w.cache, given, alreadyVerified, deferred, s);
                  end == Completed(config, w, c, CacheAfter(w.cache, given, alreadyVerified, s)) && Agrees(end, config, Some(c)))
  {
    PreparesExactly(w, given, archivePath, alreadyVerified, deferred, s);
    var (ready, o, c, j) := PreparedBy(w, given, archivePath, alreadyVerified, deferred, s);
    if o.Done? {
      PublicationEndsExactly(config, ready, c, j, s);
      CompletedAgrees(config, w, c, ready.cache);
    }
  }

  /** An activation in which every operation works, of evidence that is complete:
      it succeeds exactly if no journal is left over, the reference is not empty,
      and the candidate is cached under its identity, or has an archive that
      imports under it. */
  lemma ActivationCanFinish(config: string, w: World, given: Receipt, archivePath: string, id: string)
    ensures var (end, o) := ActivatedBy(config, w, given, archivePath, false, false, CalmActivation(id));
            var known := Identified(w.cache, given).artifact;
            && (o.Done? <==> && w.journal.None? && given.artifact.reference != ""
                             && (InCache(w.cache, known) || (archivePath != "" && id != "" && known.cacheId in {"", id})))
            && (o.Done? ==> end.journal.None? && end.receipt.Stored? && Agrees(end, config, Some(end.receipt.receipt))
                            && Resolves(given, end.receipt.receipt))
  {
    ActivationEndsExactly(config, w, given, archivePath, false, false, CalmActivation(id));
  }

  // ---------------------------------------------------- activations that fail

  predicate Loses(f: Fault) {
    f.Crashes? || f.CrashesLate?
  }

  predicate Quiet(s: RollbackScript) {
    && !Loses(s.custody) && !Loses(s.verify) && !Loses(s.activate) && !Loses(s.receipt) && !Loses(s.register)
    && !Loses(s.release) && !Loses(s.supersede) && !Loses(s.persist) && !Loses(s.remove)
  }

  /** No operation from the verified candidate on loses the process. */
  predicate QuietlyPublishes(s: ActivateScript) {
    && !Loses(s.blocked) && !Loses(s.activate) && !Loses(s.activated) && !Loses(s.readBack) && !Loses(s.confirmed)
    && !Loses(s.receipt) && !Loses(s.published) && !Loses(s.register) && !Loses(s.release) && !Loses(s.committed)
    && !Loses(s.remove) && Quiet(s.rollback)
  }

  /** A publication that fails once the candidate is active, short of removing its
      journal, is rolled back before it returns: the journal goes exactly if the
      rollback has what it needs, and then all stores name the receipt from
      before. */
  lemma FailedPublicationIsTakenBack(config: string, w: World, c: Receipt, prepared: Journal, s: ActivateScript) returns (mid: World, j: Journal)
    requires w.journal == Some(prepared) && prepared.phase == Verified && prepared.candidate == c && InCache(w.cache, c.artifact)
    requires QuietlyPublishes(s) && s.blocked.Works? && s.activate.Works?
    requires !Publishes(s.(remove := Works)) || c.artifact.reference == ""
    ensures var (w', o) := PublishedBy(config, w, c, prepared, s);
            && o.Failed? && (w'.journal.None? <==> RollbackWorks(config, mid, j, s.rollback.(remove := Works)) && Lands(s.rollback.remove))
            && (w'.journal.None? ==> Agrees(w', config, prepared.previous))
    ensures j == prepared.(phase := j.phase) && mid.cache == w.cache && mid.active == Some(c.artifact)
    ensures Recording(w.catalog, config, c.artifact, mid.catalog)
  {
    mid, j := PublicationStops(config, w, c, prepared, s);
    RollbackEndsExactly(config, mid, j, s.rollback);
    RollbackRollsBack(config, mid, j, s.rollback);
    QuietRollbackReturns(config, mid, j, s.rollback);
  }

  /** Where such a publication stops, and that it is rolled back from there. */
  lemma PublicationStops(config: string, w: World, c: Receipt, prepared: Journal, s: ActivateScript) returns (mid: World, j: Journal)
    requires w.journal == Some(prepared) && prepared.phase == Verified && prepared.candidate == c && InCache(w.cache, c.artifact)
    requires QuietlyPublishes(s) && s.blocked.Works? && s.activate.Works?
    requires !Publishes(s.(remove := Works)) || c.artifact.reference == ""
    ensures var (end, o) := RolledBackBy(config, mid, j, s.rollback);
            PublishedBy(config, w, c, prepared, s) == (end, if o.Crashed? then Crashed else Failed)
    ensures j == prepared.(phase := j.phase) && mid.journal.Some? && mid.cache == w.cache && mid.active == Some(c.artifact)
    ensures Recording(w.catalog, config, c.artifact, mid.catalog)
  {
    var (w2, o2, activated, j2) := PublishedActive(w, c, prepared, s);
    PublishActiveReaches(config, w, c, prepared, s);
    mid, j := w2, j2;
    if o2.Done? {
      PublishRecordsReaches(config, w2, c, j2, s);
      mid, j := PublishedRecords(config, w2, c, j2, s).0, PublishedRecords(config, w2, c, j2, s).2;
    }
  }

  lemma QuietRollbackReturns(config: string, w: World, j: Journal, s: RollbackScript)
    requires w.journal.Some? && Quiet(s)
    ensures !RolledBackBy(config, w, j, s).1.Crashed?
  {
  }

  /** A publication that fails before the candidate is active leaves template,
      receipt and catalog alone, under its journal. */
  lemma EarlyFailureActivatesNothing(config: string, w: World, c: Receipt, prepared: Journal, s: ActivateScript)
    requires w.journal == Some(prepared) && !(s.blocked.Works? && s.activate.Works?)
    ensures var (w', o) := PublishedBy(config, w, c, prepared, s);
            !o.Done? && w' == w.(journal := w'.journal) && w'.journal in {Some(prepared), Some(prepared.(phase := AdmissionBlocked))}
  {
  }

  /** The candidate has no catalog entry, or one that is its own. */
  predicate Unclaimed(c: Catalog, a: Artifact) {
    a.cacheId in c ==> c[a.cacheId].locator == a.reference && c[a.cacheId].fingerprint == a.digest
  }

  /** The previous artifact is cached under another identity than the candidate. */
  predicate Returnable(w: World, p: Artifact, a: Artifact) {
    p.reference !in {"", a.reference} && p.cacheId != a.cacheId && InCache(w.cache, p)
  }

  /** A failed activation whose rollback meets no failure itself puts everything
      back: if the previous artifact, should there be one, can be returned to, and
      no foreign catalog entry stands under the candidate's identity, template,
      receipt and catalog name the previous receipt again, or nothing, and no
      journal is left. */
  lemma FailedActivationIsUndone(config: string, w: World, given: Receipt, archivePath: string, alreadyVerified: bool,
                                 deferred: bool, s: ActivateScript)
    requires Prepares(w, given, archivePath, alreadyVerified, deferred, s) && s.blocked.Works? && s.activate.Works?
    requires QuietlyPublishes(s) && s.rollback == CALM_ROLLBACK && !Publishes(s.(remove := Works))
    requires var (a, previous) := (Candidate(w.cache, given, alreadyVerified, deferred, s).artifact, ReadOf(w.receipt, s.readable));
             a.reference != "" && Unclaimed(w.catalog, a) && (previous.Some? ==> Returnable(w, previous.value.artifact, a))
    ensures var (end, o) := ActivatedBy(config, w, given, archivePath, alreadyVerified, deferred, s);
            o.Failed? && end.journal.None? && Agrees(end, config, ReadOf(w.receipt, s.readable))
  {
    PreparesExactly(w, given, archivePath, alreadyVerified, deferred, s);
    var (ready, o, c, j) := PreparedBy(w, given, archivePath, alreadyVerified, deferred, s);
    var mid, j' := FailedPublicationIsTakenBack(config, ready, c, j, s);
    CustodyIsFree(config, w.catalog, c.artifact, j.previous, mid.catalog);
  }

  lemma CustodyIsFree(config: string, before: Catalog, a: Artifact, previous: Option<Receipt>, mid: Catalog)
    requires Recording(before, config, a, mid) && Unclaimed(before, a) && a.cacheId != "" && a.reference != ""
    requires previous.Some? ==> previous.value.artifact.cacheId != a.cacheId
    ensures RecordSuperseded(RestoredCatalog(config, mid, previous), a).Some?
  {
  }
}
