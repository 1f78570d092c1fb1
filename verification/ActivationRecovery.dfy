/** Recovery that is cut and run again, as often as it takes. */
module ActivationRecovery {
  import opened Wrappers
  import opened ActivationState
  import opened Activation
  import opened ActivationRuns

  // ------------------------------------------------------- which side is taken

  /** The cache identity that recovery gives the candidate. */
  function EffectiveId(cache: map<string, string>, j: Journal): string {
    var reference := j.candidate.artifact.reference;
    if j.imported && reference in cache then cache[reference] else j.candidate.artifact.cacheId
  }

  /** The receipt on disk is the candidate's, its cache identity aside. */
  ghost predicate CandidateOnDisk(w: World, j: Journal) {
    w.receipt.Stored? && NamesCandidate(w.receipt.receipt, j.candidate)
  }

  /** Recovery finds the candidate published exactly if the receipt on disk is
      the candidate's and carries the identity that recovery gives it. */
  lemma PublishedExactly(w: World, j: Journal)
    ensures Published(w, j) <==> CandidateOnDisk(w, j) && w.receipt.receipt.artifact.cacheId == EffectiveId(w.cache, j)
  {
    if w.receipt.Stored? {
      var r, c := w.receipt.receipt, j.candidate;
      assert WithCacheId(r, c.artifact.cacheId).artifact == r.artifact.(cacheId := c.artifact.cacheId);
    }
  }

  /** The receipt that all stores name once a recovery of `w` has ended. */
  ghost function Choice(w: World): Option<Receipt>
    requires w.journal.Some?
  {
    if Published(w, w.journal.value) then Some(Reread(w, w.journal.value).candidate) else w.journal.value.previous
  }

  /** A recovery that ends commits exactly if the candidate's receipt was
      published and could be read; otherwise it restores the journaled previous
      receipt, or none, and tracks a candidate in need of custody. */
  lemma RecoveryEnds(config: string, w: World, s: RecoverScript)
    requires w.journal.Some? && RecoveredBy(config, w, s).0.journal.None?
    ensures var (end, j) := (RecoveredBy(config, w, s).0, Reread(w, w.journal.value));
            if s.readable && Published(w, w.journal.value) then Agrees(end, config, Some(j.candidate))
            else Agrees(end, config, j.previous) && (NeedsCustody(w.cache, j) ==> Tracked(end.catalog, j.candidate.artifact))
  {
    RecoveryRecovers(config, w, s);
  }

  /** A recovery on its way to commit that is cut, or fails, leaves journal and
      receipt alone. After any later change of the cache the next one goes back
      instead exactly if the candidate now gets another identity than the
      receipt has: with the journal in step with the receipt, exactly if the
      candidate was imported and its reference is cached under another one. */
  lemma NextAttemptTurnsBack(config: string, w: World, s: RecoverScript, next: World)
    requires w.journal.Some? && s.readable && Published(w, w.journal.value)
    requires var cut := RecoveredBy(config, w, s).0; cut.journal.Some? && next == cut.(cache := next.cache, active := next.active)
    ensures next.journal == w.journal && next.receipt == w.receipt
    ensures var (j, id) := (w.journal.value, w.receipt.receipt.artifact.cacheId);
            && (!Published(next, j) <==> EffectiveId(next.cache, j) != id)
            && (j.candidate.artifact.cacheId == id ==>
                  (!Published(next, j)
                   <==> j.imported && j.candidate.artifact.reference in next.cache && next.cache[j.candidate.artifact.reference] != id))
  {
    RecoveryRecovers(config, w, s);
    PublishedExactly(w, w.journal.value);
    PublishedExactly(next, w.journal.value);
  }

  // -------------------------------------------------------------------- reruns

  /** A recovery that reads the receipt, ended or cut; a restart; or a change of
      the provider cache. */
  ghost predicate Rerun(config: string, w: World, w': World) {
    || (exists s: RecoverScript :: s.readable && w' == RecoveredBy(config, w, s).0)
    || w' == w.(active := None)
    || w' == w.(cache := w'.cache)
  }

  /** The cache gives the candidate no other identity than its receipt has. */
  ghost predicate Steady(w: World) {
    w.journal.Some? && CandidateOnDisk(w, w.journal.value) ==>
      EffectiveId(w.cache, w.journal.value) == w.receipt.receipt.artifact.cacheId
  }

  /** A series of such steps whose last one got rid of the journal. */
  ghost predicate Reruns(config: string, run: seq<World>) {
    && |run| >= 2
    && (forall i | 0 < i < |run| :: Rerun(config, run[i - 1], run[i]))
    && (forall i | 0 <= i < |run| - 1 :: run[i].journal.Some? && Steady(run[i]))
    && run[|run| - 1].journal.None?
  }

  /** Both names for a choice, when previous and candidate are one receipt. */
  ghost predicate SameChoice(a: Option<Receipt>, b: Option<Receipt>) {
    a == b || (a.Some? && b.Some? && SameReceipt(a.value, b.value))
  }

  lemma AgreesForSameChoice(w: World, config: string, a: Option<Receipt>, b: Option<Receipt>)
    requires SameChoice(a, b) && Agrees(w, config, a)
    ensures Agrees(w, config, b)
  {
  }

  /** A step that leaves the journal behind, under a steady cache, leaves its
      side to the next one. */
  lemma StepKeepsChoice(config: string, w: World, w': World)
    requires w.journal.Some? && w'.journal.Some? && Rerun(config, w, w') && Steady(w) && Steady(w')
    ensures SameChoice(Choice(w'), Choice(w))
  {
    PublishedExactly(w, w.journal.value);
    PublishedExactly(w', w'.journal.value);
    if s: RecoverScript :| s.readable && w' == RecoveredBy(config, w, s).0 {
      RecoveryRecovers(config, w, s);
    }
  }

  lemma LastStepReaches(config: string, w: World, w': World)
    requires w.journal.Some? && w'.journal.None? && Rerun(config, w, w')
    ensures Agrees(w', config, Choice(w))
    ensures var j := Reread(w, w.journal.value);
            !Published(w, w.journal.value) && NeedsCustody(w.cache, j) ==> Tracked(w'.catalog, j.candidate.artifact)
  {
    var s: RecoverScript :| s.readable && w' == RecoveredBy(config, w, s).0;
    RecoveryEnds(config, w, s);
  }

  /** However often recovery is cut and rerun, with imports, restarts and cache
      changes in between, as long as the cache gives the candidate no other
      identity: once the journal is gone all stores name the candidate if its
      receipt was on disk at the first attempt, and the previous receipt or
      nothing otherwise. */
  lemma {:induction false} RerunsReachTheChoice(config: string, run: seq<World>)
    requires Reruns(config, run)
    ensures Agrees(run[|run| - 1], config, Choice(run[0]))
  {
    if |run| > 2 {
      var rest := run[1..];
      RestOfReruns(config, run);
      RerunsReachTheChoice(config, rest);
      FirstOfReruns(config, run);
      AgreesForSameChoice(run[|run| - 1], config, Choice(run[1]), Choice(run[0]));
    } else {
      assert Rerun(config, run[0], run[1]);
      LastStepReaches(config, run[0], run[1]);
    }
  }

  /** A candidate that needs custody in the end is tracked. */
  lemma RerunsEndInCustody(config: string, run: seq<World>)
    requires Reruns(config, run)
    ensures var last := run[|run| - 2];
            var j := Reread(last, last.journal.value);
            !Published(last, last.journal.value) && NeedsCustody(last.cache, j)
            ==> Tracked(run[|run| - 1].catalog, j.candidate.artifact)
  {
    var i := |run| - 1;
    assert Rerun(config, run[i - 1], run[i]) && run[i - 1].journal.Some?;
    LastStepReaches(config, run[i - 1], run[i]);
  }

  lemma FirstOfReruns(config: string, run: seq<World>)
    requires Reruns(config, run) && |run| > 2
    ensures run[0].journal.Some? && run[1].journal.Some? && SameChoice(Choice(run[1]), Choice(run[0]))
  {
    assert Rerun(config, run[0], run[1]);
    StepKeepsChoice(config, run[0], run[1]);
  }

  lemma RestOfReruns(config: string, run: seq<World>)
    requires Reruns(config, run) && |run| > 2
    ensures Reruns(config, run[1..])
  {
    var rest := run[1..];
    forall i | 0 < i < |rest| ensures Rerun(config, rest[i - 1], rest[i]) { assert Rerun(config, run[i], run[i + 1]); }
    assert forall i | 0 <= i < |rest| - 1 :: rest[i] == run[i + 1];
  }

  // ----------------------------------------------------- runs that work or lose

  /** The catalog once a rollback has restored the previous ownership. */
  function RestoredCatalog(config: string, c: Catalog, previous: Option<Receipt>): Catalog {
    if previous.Some?
    then ReleaseRole(RegisterCurrent(c, Ref(config, PROVIDER_ARTIFACT), previous.value.artifact), Ref(config, BUILD_SOURCE))
    else ReleaseRole(c, Ref(config, PROVIDER_ARTIFACT))
  }

  /** What a rollback needs: the previous artifact in the cache or, without one,
      nothing else than the candidate active; custody that does not conflict with
      the catalog; and every operation on the way. */
  predicate RollbackWorks(config: string, w: World, j: Journal, s: RollbackScript) {
    var a := j.candidate.artifact;
    var same := j.previous.Some? && j.previous.value.artifact == a;
    && (same || j.imported || a.cacheId == "" || s.custody.Works?)
    && (if j.previous.Some? then
          && InCache(w.cache, j.previous.value.artifact) && j.previous.value.artifact.reference != ""
          && s.verify.Works? && s.activate.Works? && s.release.Works?
        else w.active in {None, Some(a)})
    && s.receipt.Works? && s.register.Works?
    && (NeedsCustody(w.cache, j) ==>
          s.supersede.Works? && RecordSuperseded(RestoredCatalog(config, w.catalog, j.previous), a).Some?)
    && s.persist.Works? && s.remove.Works?
  }

  lemma RollbackEndsExactly(config: string, w: World, j: Journal, s: RollbackScript)
    ensures RolledBackBy(config, w, j, s).1.Done? <==> RollbackWorks(config, w, j, s)
    ensures w.journal.Some? ==>
              (RolledBackBy(config, w, j, s).0.journal.None? <==> RollbackWorks(config, w, j, s.(remove := Works)) && Lands(s.remove))
  {
    var (known, custody) := CustodyOf(w, j, s);
    assert known.Done? ==> (custody <==> NeedsCustody(w.cache, j));
  }

  /** A rollback in which every operation works ends exactly if the previous
      artifact is still cached (or, without one, nothing else than the candidate
      is active) and the candidate's custody does not conflict with the catalog. */
  lemma RollbackCanFinish(config: string, w: World, j: Journal)
    requires w.journal.Some? && (j.previous.Some? ==> j.previous.value.artifact.reference != "")
    ensures RolledBackBy(config, w, j, CALM_ROLLBACK).1.Done?
            <==> && (if j.previous.Some? then InCache(w.cache, j.previous.value.artifact)
                     else w.active in {None, Some(j.candidate.artifact)})
                 && (NeedsCustody(w.cache, j) ==>
                       RecordSuperseded(RestoredCatalog(config, w.catalog, j.previous), j.candidate.artifact).Some?)
    ensures RolledBackBy(config, w, j, CALM_ROLLBACK).1.Done? ==>
              RolledBackBy(config, w, j, CALM_ROLLBACK).0.journal.None?
              && Agrees(RolledBackBy(config, w, j, CALM_ROLLBACK).0, config, j.previous)
  {
    RollbackRollsBack(config, w, j, CALM_ROLLBACK);
    RollbackEndsExactly(config, w, j, CALM_ROLLBACK);
  }

  /** Re-importing an evicted candidate gives it a fresh identity, which its
      published receipt does not have. Two recoveries in which every operation
      works: the first fails on its own import, the second goes back. */
  lemma ReimportTurnsCommitIntoRollback() returns (w: World, cut: World, end: World)
    ensures Sound("c", w) && w.journal.Some? && Published(w, w.journal.value)
    ensures RecoveredBy("c", w, CalmRecovery("y")) == (cut, Failed)
    ensures RecoveredBy("c", cut, CalmRecovery("y")) == (end, Done)
    ensures w.journal.value.previous.Some? && Agrees(end, "c", w.journal.value.previous)
    ensures !SameReceipt(w.journal.value.previous.value, w.journal.value.candidate)
  {
    var oldOne, newOne := OldReceipt(), NewReceipt();
    var j := Journal(ReadBack, newOne, Some(oldOne), "archive", true);
    w := World(Some(j), Stored(newOne), OldCatalog(), map["old" := "p"], None);
    assert InFlightFrom("c", j, Some(oldOne), w);
    cut := w.(cache := w.cache["new" := "y"]);
    end := RecoveredBy("c", cut, CalmRecovery("y")).0;
    var again := Reread(cut, j);
    RollbackCanFinish("c", cut, again);
    RecoveryEnds("c", cut, CalmRecovery("y"));
  }

  function OldReceipt(): Receipt {
    Receipt(1, LocalBuild, "m", Artifact("old", "d1", "p", "linux/amd64", "40GiB"), "md", "ar", 1, 1, ["e"])
  }

  function NewReceipt(): Receipt {
    Receipt(1, LocalBuild, "m", Artifact("new", "d2", "x", "linux/amd64", "40GiB"), "md", "ar", 1, 2, ["e"])
  }

  function OldCatalog(): Catalog {
    map["p" := Entry("old", "d1", Current, {Ref("c", PROVIDER_ARTIFACT)})]
  }

  // ----------------------------------------------------------- failed reads

  /** An activation journals as previous receipt exactly the one on disk if it
      could be read, and none otherwise. */
  lemma PreviousIsJournaledIfRead(config: string, w: World, given: Receipt, archivePath: string, verified: bool, deferred: bool, s: ActivateScript)
    requires w.journal.None?
    ensures var w' := ActivatedBy(config, w, given, archivePath, verified, deferred, s).0;
            w'.journal.Some? ==> w'.journal.value.previous == ReadOf(w.receipt, s.readable)
  {
    var j0 := Journal(Prepared, given, ReadOf(w.receipt, s.readable), archivePath, false);
    var w1 := Persisted(w, j0, s.journal);
    if !Refused(w, given, deferred, s) && s.journal.Works? {
      ObtainObtains(w1, given, archivePath, verified, deferred, j0, s);
      var (w2, o, c, j) := ObtainedBy(w1, given, archivePath, verified, deferred, j0, s);
      if o.Done? {
        var mid, back := PublishPublishes(config, w2, c, j, s);
      }
    }
  }

  /** A receipt that cannot be read when the activation begins is lost with the
      rollback of that activation: the journal does not know it, and the next
      recovery, in which everything works, removes it. */
  lemma UnreadablePreviousIsLost() returns (w: World, cut: World, end: World)
    ensures Sound("c", w) && w.receipt == Stored(OldReceipt()) && Agrees(w, "c", Some(OldReceipt()))
    ensures ActivatedBy("c", w, NewReceipt(), "", false, false, CalmActivation("").(readable := false, journal := CrashesLate)) == (cut, Crashed)
    ensures RecoveredBy("c", cut.(active := None), CalmRecovery("")) == (end, Done)
    ensures end.journal.None? && end.receipt.Missing? && Agrees(end, "c", None)
  {
    w := World(None, Stored(OldReceipt()), OldCatalog(), map["old" := "p"], Some(OldReceipt().artifact));
    cut := w.(journal := Some(Journal(Prepared, NewReceipt(), None, "", false)));
    var restarted := cut.(active := None);
    end := RecoveredBy("c", restarted, CalmRecovery("")).0;
    RollbackCanFinish("c", restarted, cut.journal.value);
    RecoveryEnds("c", restarted, CalmRecovery(""));
  }

  /** A published receipt that cannot be read at recovery is undone. */
  lemma UnreadableReceiptIsUndone() returns (w: World, end: World)
    ensures Sound("c", w) && w.journal.Some? && Published(w, w.journal.value)
    ensures RecoveredBy("c", w, CalmRecovery("").(readable := false)) == (end, Done)
    ensures w.journal.value.previous == Some(OldReceipt()) && Agrees(end, "c", Some(OldReceipt()))
  {
    var j := Journal(ReceiptPublished, NewReceipt(), Some(OldReceipt()), "", false);
    w := World(Some(j), Stored(NewReceipt()), OldCatalog(), map["old" := "p", "new" := "x"], Some(NewReceipt().artifact));
    assert InFlightFrom("c", j, Some(OldReceipt()), w);
    var s := CalmRecovery("").(readable := false);
    end := RecoveredBy("c", w, s).0;
    RollbackCanFinish("c", w, j);
    RecoveryEnds("c", w, s);
  }
}
