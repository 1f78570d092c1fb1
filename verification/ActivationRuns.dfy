/** Activations, recoveries and restarts in any order, each cut anywhere. */
module ActivationRuns {
  import opened Wrappers
  import opened ActivationState
  import opened Activation

  /** One controller operation, a process restart, or a change of the provider
      cache behind the controller's back. */
  ghost predicate Step(config: string, w: World, w': World) {
    || (exists given, archivePath, verified, deferred, s ::
          w' == ActivatedBy(config, w, given, archivePath, verified, deferred, s).0)
    || (exists s :: w' == RecoveredBy(config, w, s).0)
    || w' == w.(active := None)
    || w' == w.(cache := w'.cache)
  }

  ghost predicate IsRun(config: string, run: seq<World>) {
    && |run| > 0
    && forall i | 0 < i < |run| :: Step(config, run[i - 1], run[i])
  }

  // ------------------------------------------------------- soundness of runs

  ghost predicate ArtifactNames(a: Artifact, c: Receipt) {
    a.(cacheId := c.artifact.cacheId) == c.artifact
  }

  /** A receipt of the journal's candidate, whatever cache identity it has. */
  ghost predicate NamesCandidate(r: Receipt, c: Receipt) {
    SameReceipt(WithCacheId(r, c.artifact.cacheId), c)
  }

  function FileOf(choice: Option<Receipt>): ReceiptFile {
    if choice.Some? then Stored(choice.value) else Missing
  }

  /** Under a journal every store names the receipt from before, the candidate,
      or, if no receipt from before was journaled, nothing. `before` is that
      receipt; it is the journaled one whenever there is one, and may be another
      when the file could not be read. */
  ghost predicate InFlightFrom(config: string, j: Journal, before: Option<Receipt>, w: World) {
    && (j.previous.Some? ==> before == j.previous)
    && (|| w.receipt == FileOf(before)
        || (j.previous.None? && w.receipt.Missing?)
        || (w.receipt.Stored? && NamesCandidate(w.receipt.receipt, j.candidate)))
    && (w.active.Some? ==>
          || (before.Some? && w.active.value == before.value.artifact)
          || ArtifactNames(w.active.value, j.candidate))
    && CatalogInFlight(config, j, before, w.catalog)
  }

  ghost predicate CatalogInFlight(config: string, j: Journal, before: Option<Receipt>, c: Catalog) {
    || CatalogNames(c, config, before)
    || (j.previous.None? && NoCurrent(c, config))
    || exists a :: CurrentIs(c, config, a) && ArtifactNames(a, j.candidate)
  }

  ghost predicate InFlight(config: string, j: Journal, w: World) {
    exists before :: InFlightFrom(config, j, before, w)
  }

  /** Between transactions receipt and catalog agree, and an active template is
      the one they name. */
  ghost predicate Settled(config: string, w: World) {
    && !w.receipt.Unusable?
    && CatalogNames(w.catalog, config, PreviousOf(w.receipt))
    && (w.active.Some? ==> w.active == ActiveOf(PreviousOf(w.receipt)))
  }

  ghost predicate Sound(config: string, w: World) {
    match w.journal
    case None => Settled(config, w)
    case Some(j) => InFlight(config, j, w)
  }

  lemma RecordingNames(before: Catalog, config: string, a: Artifact, after: Catalog)
    requires Recording(before, config, a, after)
    ensures after == before || CurrentIs(after, config, a)
  {
    RegisterNames(before, config, a);
    ReleaseKeeps(RegisterCurrent(before, Ref(config, PROVIDER_ARTIFACT), a), config, BUILD_SOURCE, a);
  }

  lemma CustodyKeepsNames(c: Catalog, config: string, a: Artifact, b: Artifact)
    requires RecordSuperseded(c, b).Some?
    ensures CurrentIs(c, config, a) ==> CurrentIs(RecordSuperseded(c, b).value, config, a)
    ensures NoCurrent(c, config) ==> NoCurrent(RecordSuperseded(c, b).value, config)
  {
  }

  lemma RestoringKeepsCatalog(config: string, j: Journal, before: Option<Receipt>, c: Catalog, after: Catalog)
    requires j.previous.Some? ==> before == j.previous
    requires CatalogInFlight(config, j, before, c)
    requires Recordkeeping(c, config, j, after)
    ensures CatalogInFlight(config, j, before, after)
  {
    var mid := after;
    if !Restoring(c, config, j.previous, after) {
      mid :| Restoring(c, config, j.previous, mid) && RecordSuperseded(mid, j.candidate.artifact) == Some(after);
      forall a { CustodyKeepsNames(mid, config, a, j.candidate.artifact); }
    }
    if j.previous.Some? {
      RecordingNames(c, config, j.previous.value.artifact, mid);
    } else if mid != c {
      ReleaseNames(c, config);
    }
  }

  lemma RollbackIsSound(config: string, j: Journal, before: Option<Receipt>, w: World, w': World, o: Outcome)
    requires InFlightFrom(config, j, before, w) && RollsBack(config, j, w, w', o)
    requires w.journal.Some? && NamesCandidate(w.journal.value.candidate, j.candidate)
    requires w.journal.value.previous == j.previous
    ensures Sound(config, w')
  {
    RestoringKeepsCatalog(config, j, before, w.catalog, w'.catalog);
    assert InFlightFrom(config, j, before, w');
    if w'.journal == w.journal {
      InFlightForNamesake(config, j, w.journal.value, before, w');
    } else if w'.journal.Some? {
      InFlightForNamesake(config, j, w'.journal.value, before, w');
    }
  }

  /** In-flight soundness does not depend on the candidate's cache identity. */
  lemma InFlightForNamesake(config: string, j: Journal, j': Journal, before: Option<Receipt>, w: World)
    requires InFlightFrom(config, j, before, w)
    requires j'.previous == j.previous && NamesCandidate(j'.candidate, j.candidate)
    ensures InFlightFrom(config, j', before, w)
  {
    if !CatalogNames(w.catalog, config, before) && !(j.previous.None? && NoCurrent(w.catalog, config)) {
      var a :| CurrentIs(w.catalog, config, a) && ArtifactNames(a, j.candidate);
      assert ArtifactNames(a, j'.candidate);
    }
  }

  lemma RecoveryIsSound(config: string, readable: bool, w: World, w': World, o: Outcome)
    requires Sound(config, w) && Recovers(config, readable, w, w', o)
    ensures Sound(config, w')
  {
    if w.journal.Some? && w' != w {
      var j := Reread(w, w.journal.value);
      var before :| InFlightFrom(config, w.journal.value, before, w);
      InFlightForNamesake(config, w.journal.value, j, before, w);
      if readable && Published(w, w.journal.value) {
        CommitIsSound(config, j, before, w, w', o);
      } else {
        RollbackIsSound(config, j, before, w, w', o);
      }
    }
  }

  lemma CommitIsSound(config: string, j: Journal, before: Option<Receipt>, w: World, w': World, o: Outcome)
    requires InFlightFrom(config, j, before, w) && Commits(config, j, w, w', o)
    requires w.journal.Some? && NamesCandidate(w.journal.value.candidate, j.candidate)
    requires w.journal.value.previous == j.previous
    ensures Sound(config, w')
  {
    RecordingNames(w.catalog, config, j.candidate.artifact, w'.catalog);
    if w'.journal.Some? {
      assert InFlightFrom(config, j, before, w');
      InFlightForNamesake(config, j, w.journal.value, before, w');
    }
  }

  lemma ForwardIsInFlight(config: string, given: Receipt, archivePath: string, w: World, c: Receipt, w': World)
    requires Sound(config, w) && Forward(config, given, archivePath, w, c, w')
    ensures InFlightFrom(config, w'.journal.value, PreviousOf(w.receipt), w')
  {
    RecordingNames(w.catalog, config, c.artifact, w'.catalog);
  }

  lemma CompletionIsSound(config: string, given: Receipt, w: World, c: Receipt, w': World)
    requires CompletedBy(config, given, w, c, w')
    ensures Sound(config, w')
  {
    RegisterNames(w.catalog, config, c.artifact);
    ReleaseKeeps(RegisterCurrent(w.catalog, Ref(config, PROVIDER_ARTIFACT), c.artifact), config, BUILD_SOURCE, c.artifact);
  }

  lemma UndoneIsSound(config: string, given: Receipt, archivePath: string, w: World, c: Receipt, mid: World, j: Journal, w': World, o: Outcome)
    requires Sound(config, w) && Undone(config, given, archivePath, w, c, mid, j, w', o)
    ensures Sound(config, w')
  {
    ForwardIsInFlight(config, given, archivePath, w, c, mid);
    InFlightForNamesake(config, mid.journal.value, j, PreviousOf(w.receipt), mid);
    RollbackIsSound(config, j, PreviousOf(w.receipt), mid, w', o);
  }

  lemma ActivationIsSound(config: string, given: Receipt, archivePath: string, w: World, w': World, o: Outcome)
    requires Sound(config, w) && Activates(config, given, archivePath, w, w', o)
    ensures Sound(config, w')
  {
    if c :| Forward(config, given, archivePath, w, c, w') {
      ForwardIsInFlight(config, given, archivePath, w, c, w');
    } else if c :| CompletedBy(config, given, w, c, w') {
      CompletionIsSound(config, given, w, c, w');
    } else if c, mid, j, o' :| Undone(config, given, archivePath, w, c, mid, j, w', o') {
      UndoneIsSound(config, given, archivePath, w, c, mid, j, w', o');
    }
  }

  lemma StepIsSound(config: string, w: World, w': World)
    requires Sound(config, w) && Step(config, w, w')
    ensures Sound(config, w')
  {
    if given, archivePath, verified, deferred, s :| w' == ActivatedBy(config, w, given, archivePath, verified, deferred, s).0 {
      ActivationActivates(config, w, given, archivePath, verified, deferred, s);
      ActivationIsSound(config, given, archivePath, w, w', ActivatedBy(config, w, given, archivePath, verified, deferred, s).1);
    } else if s :| w' == RecoveredBy(config, w, s).0 {
      RecoveryRecovers(config, w, s);
      RecoveryIsSound(config, s.readable, w, w', RecoveredBy(config, w, s).1);
    } else if w.journal.Some? {
      var before :| InFlightFrom(config, w.journal.value, before, w);
      assert InFlightFrom(config, w.journal.value, before, w');
    }
  }

  /** Through every run of activations, recoveries, crashes, restarts and cache
      changes the stores stay sound. */
  lemma {:induction false} RunsStaySound(config: string, run: seq<World>)
    requires IsRun(config, run) && Sound(config, run[0])
    ensures forall w | w in run :: Sound(config, w)
  {
    if |run| > 1 {
      var front, last := run[..|run| - 1], |run| - 1;
      RunsStaySound(config, front);
      assert run[last - 1] in front && Step(config, run[last - 1], run[last]);
      StepIsSound(config, run[last - 1], run[last]);
      assert run == front + [run[last]];
    }
  }
}
