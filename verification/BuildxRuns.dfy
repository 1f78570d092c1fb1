/** Runs of the builder reconciliation one after another, with changes of the
    builder by others in between. */
module BuildxRuns {
  import opened BuildxReconcile
  import opened Text
  import opened Wrappers

  // ------------------------------------------------------------------ one run

  /** A run that succeeds leaves a builder under metadata with exactly the
      requested setup and the pulled image, for the one backend that all three
      readings of an attempt named. */
  lemma ReadyMeansExpected(owner: Ownership, w: World, owned: Option<Metadata>, setup: Setup, last: bool, s: AttemptScript)
    requires AttemptedBy(owner, w, owned, setup, last, s).1.Ready?
    ensures var w' := AttemptedBy(owner, w, owned, setup, last, s).0;
            && w'.builder && w'.file.Stored? && s.pulled.Some?
            && w'.file.metadata.setup == setup.(imageId := s.pulled.value)
            && BackendOf(s.backend) == BackendOf(s.pulledOn) == BackendOf(s.confirmed) == Some(w'.file.metadata.backend)
  {
    AttemptIsSafe(owner, w, owned, setup, last, s);
  }

  /** Everything a builder can be judged by fits: same setup, one node without
      errors, and, if its metadata names a backend, the same. */
  predicate Suits(actual: Metadata, expected: Metadata, s: AttemptScript) {
    && actual.setup == expected.setup && s.nodes <= 1 && !s.nodeError
    && (actual.backend == expected.backend || (actual.schema == MIGRATABLE && actual.backend == ""))
  }

  /** A builder is taken over unchanged exactly if it can be inspected, metadata
      of this owner says whose it is, and all of that suits. */
  lemma KeptBuilderFits(owner: Ownership, w: World, expected: Metadata, s: AttemptScript)
    requires expected.owner == owner && expected.schema == SCHEMA
    ensures var (w', ok, events) := PreparedBy(w, OwnedAt(owner, w), expected, s);
            ok && events == []
            <==> w.builder && s.readable && OwnedAt(owner, w).Some? && Suits(OwnedAt(owner, w).value, expected, s)
  {
  }

  /** A detach that can be seen to have worked. */
  predicate Drops(w: World, r: RemoveScript) {
    r.readable && (Lands(r.command) || !w.builder)
  }

  /** The metadata names another backend: the builder is dropped unseen. */
  predicate Moved(owned: Option<Metadata>, expected: Metadata) {
    owned.Some? && owned.value.schema == SCHEMA && owned.value.backend != expected.backend
  }

  /** A builder of one's own is there in the end: kept, made, or made anew. */
  predicate Obtains(w: World, owned: Option<Metadata>, expected: Metadata, s: AttemptScript) {
    if Moved(owned, expected) then Drops(w, s.drop) && s.create.Works?
    else
      && s.readable
      && if !w.builder then s.create.Works?
         else owned.Some? && (Recreate(owned.value, expected, s.nodeError, s.nodes) ==> Drops(w, s.drop) && s.create.Works?)
  }

  lemma ObtainsExactly(w: World, owned: Option<Metadata>, expected: Metadata, s: AttemptScript)
    ensures PreparedBy(w, owned, expected, s).1 <==> Obtains(w, owned, expected, s)
    ensures PreparedBy(w, owned, expected, s).1 ==> PreparedBy(w, owned, expected, s).0 == w.(builder := true)
  {
  }

  /** The image is pulled on the backend that was locked. */
  predicate Pulls(s: AttemptScript) {
    && BackendOf(s.backend).Some? && BackendOf(s.pulledOn) == BackendOf(s.backend)
    && s.pulled.Some? && s.pulled.value != ""
  }

  function ExpectedOf(owner: Ownership, setup: Setup, s: AttemptScript): Metadata
    requires Pulls(s)
  {
    Expected(owner, setup, BackendOf(s.backend).value, s.pulled.value)
  }

  /** An attempt succeeds exactly if the image is pulled, a builder is obtained and
      verified, the backend is still the same, and the metadata can be written:
      that of the request, with the time of creation kept if there was one. */
  lemma ReadyExactly(owner: Ownership, w: World, owned: Option<Metadata>, setup: Setup, last: bool, s: AttemptScript)
    ensures var (w', r, _) := AttemptedBy(owner, w, owned, setup, last, s);
            && (r.Ready? <==> Pulls(s) && Obtains(w, owned, ExpectedOf(owner, setup, s), s) && s.verify.Works?
                              && BackendOf(s.confirmed) == BackendOf(s.backend) && s.write.Works?)
            && (r.Ready? ==>
                  var created := if owned.Some? && owned.value.createdAt.Some? then owned.value.createdAt else Some(s.now);
                  w' == World(true, Stored(ExpectedOf(owner, setup, s).(createdAt := created, reconciledAt := s.now))))
  {
    if Pulls(s) { ObtainsExactly(w, owned, ExpectedOf(owner, setup, s), s); }
  }

  /** The backend changed while the image was pulled. */
  predicate PullsElsewhere(s: AttemptScript) {
    && BackendOf(s.backend).Some? && BackendOf(s.pulledOn).Some? && BackendOf(s.pulledOn) != BackendOf(s.backend)
    && s.pulled.Some? && s.pulled.value != ""
  }

  /** A builder that does not verify, or whose backend changed meanwhile. */
  predicate Disappoints(s: AttemptScript) {
    !s.verify.Works? || (BackendOf(s.confirmed).Some? && BackendOf(s.confirmed) != BackendOf(s.backend))
  }

  /** The first attempt is repeated exactly if the backend changed during the pull,
      or the builder obtained disappoints and can be detached; nothing else has
      then changed. The second one never is. */
  lemma RetriesExactly(owner: Ownership, w: World, owned: Option<Metadata>, setup: Setup, last: bool, s: AttemptScript)
    ensures var (w', r, _) := AttemptedBy(owner, w, owned, setup, last, s);
            && (r.Retry? <==> !last && (|| PullsElsewhere(s)
                                        || (Pulls(s) && Obtains(w, owned, ExpectedOf(owner, setup, s), s) && Disappoints(s)
                                            && s.discard.readable && Lands(s.discard.command))))
            && (r.Retry? ==> w' == if PullsElsewhere(s) then w else w.(builder := false))
  {
    if Pulls(s) { ObtainsExactly(w, owned, ExpectedOf(owner, setup, s), s); }
  }

  /** The first published metadata of an attempt in a run. */
  ghost predicate Wrote(owner: Ownership, w: World, file: File, attempts: seq<seq<Event>>) {
    attempts != [] && PublishedBy(owner, OwnedAt(owner, w), file, attempts[|attempts| - 1])
  }

  /** Every attempt of a run is safe; the metadata changes only by what the last
      one published, and success means it did. */
  lemma RunIsSafe(owner: Ownership, w: World, setup: Setup, s: AttemptScript, t: AttemptScript)
    ensures var (w', ok, attempts) := EnsuredBy(owner, w, setup, s, t);
            && |attempts| <= 2
            && (forall events | events in attempts ::
                  DetachesOwn(events, OwnedAt(owner, w).Some?) && PublishesVerified(events) && OneLock(events))
            && (ok ==> w'.builder)
            && (ok || w'.file != w.file ==> Wrote(owner, w, w'.file, attempts))
  {
    AttemptIsSafe(owner, w, OwnedAt(owner, w), setup, false, s);
    var (w1, r1, first) := AttemptedBy(owner, w, OwnedAt(owner, w), setup, false, s);
    if r1.Retry? {
      AttemptIsSafe(owner, w1, OwnedAt(owner, w), setup, true, t);
    }
  }

  // --------------------------------------------------------------- many runs

  /** One run, or a change of the builder by somebody else. */
  datatype Step = Run(setup: Setup, first: AttemptScript, second: AttemptScript) | Change(builder: bool)

  function After(owner: Ownership, w: World, step: Step): World {
    match step
    case Run(setup, s, t) => EnsuredBy(owner, w, setup, s, t).0
    case Change(builder) => w.(builder := builder)
  }

  function AfterAll(owner: Ownership, w: World, steps: seq<Step>): World
    decreases |steps|
  {
    if steps == [] then w else AfterAll(owner, After(owner, w, steps[0]), steps[1..])
  }

  /** This step is a run whose last attempt published this metadata. */
  ghost predicate WroteIt(owner: Ownership, w: World, step: Step, file: File) {
    step.Run? && Wrote(owner, w, file, EnsuredBy(owner, w, step.setup, step.first, step.second).2)
    && EnsuredBy(owner, w, step.setup, step.first, step.second).0.file == file
  }

  /** The metadata found after any number of runs is the initial one, or names
      this owner and the backend that the run which published it had locked,
      after a verification between two equal readings of it. */
  lemma {:induction false} MetadataIsOurs(owner: Ownership, w: World, steps: seq<Step>)
    ensures var end := AfterAll(owner, w, steps);
            || end.file == w.file
            || exists k | 0 <= k < |steps| :: WroteIt(owner, AfterAll(owner, w, steps[..k]), steps[k], end.file)
    decreases |steps|
  {
    if steps != [] {
      var w1, rest := After(owner, w, steps[0]), steps[1..];
      MetadataIsOurs(owner, w1, rest);
      var end := AfterAll(owner, w, steps);
      if end.file != w1.file {
        var k :| 0 <= k < |rest| && WroteIt(owner, AfterAll(owner, w1, rest[..k]), rest[k], end.file);
        assert steps[..k + 1][1..] == rest[..k] && steps[..k + 1][0] == steps[0];
        assert WroteIt(owner, AfterAll(owner, w, steps[..k + 1]), steps[k + 1], end.file);
      } else if w1.file != w.file {
        RunIsSafe(owner, w, steps[0].setup, steps[0].first, steps[0].second);
        assert steps[..0] == [];
        assert WroteIt(owner, AfterAll(owner, w, steps[..0]), steps[0], end.file);
      }
    }
  }

  /** Whatever is published later keeps the time of creation. */
  lemma {:induction false} CreationTimeStays(owner: Ownership, w: World, steps: seq<Step>)
    requires w.file.Stored? && w.file.metadata.createdAt.Some?
    ensures var end := AfterAll(owner, w, steps);
            end.file.Stored? && end.file.metadata.createdAt == w.file.metadata.createdAt
    decreases |steps|
  {
    if steps != [] {
      var step := steps[0];
      if step.Run? { RunIsSafe(owner, w, step.setup, step.first, step.second); }
      CreationTimeStays(owner, After(owner, w, step), steps[1..]);
    }
  }

  // ----------------------------------------------------------------- refusal

  /** Whatever goes well or not, the next run fails and changes nothing. */
  ghost predicate Refused(owner: Ownership, w: World) {
    forall setup: Setup, s: AttemptScript, t: AttemptScript ::
      EnsuredBy(owner, w, setup, s, t).0 == w && !EnsuredBy(owner, w, setup, s, t).1
  }

  /** An attempt in which every command works, on this daemon. */
  function Calm(daemon: string): AttemptScript {
    var works := RemoveScript(Works, true);
    AttemptScript(Some(daemon), Some("image"), Some(daemon), true, false, 1, works, Works, Works, Some(daemon), works, Works, 1)
  }

  lemma CalmRunSucceeds(owner: Ownership, w: World, setup: Setup, daemon: string)
    requires TrimSpace(daemon) != "" && !Load(w.file, owner).Invalid? && (w.builder ==> !w.file.Absent?)
    ensures EnsuredBy(owner, w, setup, Calm(daemon), Calm(daemon)).1
  {
  }

  /** A run that repeats its first attempt succeeds with a second one in which
      every command works, unless it meets a builder without metadata. */
  lemma SecondAttemptHeals(owner: Ownership, w: World, setup: Setup, s: AttemptScript, daemon: string)
    requires TrimSpace(daemon) != "" && !Load(w.file, owner).Invalid? && (w.builder ==> !w.file.Absent?)
    requires AttemptedBy(owner, w, OwnedAt(owner, w), setup, false, s).1.Retry?
    ensures EnsuredBy(owner, w, setup, s, Calm(daemon)).1 && |EnsuredBy(owner, w, setup, s, Calm(daemon)).2| == 2
  {
    RetriesExactly(owner, w, OwnedAt(owner, w), setup, false, s);
    var w1 := AttemptedBy(owner, w, OwnedAt(owner, w), setup, false, s).0;
    ReadyExactly(owner, w1, OwnedAt(owner, w), setup, true, Calm(daemon));
  }

  /** The next run is refused exactly if there is a builder without metadata, or
      metadata that does not load for this owner. */
  lemma RefusedExactly(owner: Ownership, w: World)
    ensures Refused(owner, w) <==> (w.builder && w.file.Absent?) || Load(w.file, owner).Invalid?
  {
    if (w.builder && w.file.Absent?) || Load(w.file, owner).Invalid? {
      forall setup: Setup, s: AttemptScript, t: AttemptScript
        ensures EnsuredBy(owner, w, setup, s, t).0 == w && !EnsuredBy(owner, w, setup, s, t).1
      {
        AttemptIsSafe(owner, w, OwnedAt(owner, w), setup, false, s);
        AttemptIsSafe(owner, w, OwnedAt(owner, w), setup, true, t);
      }
    } else {
      var setup := Setup("", "", "", "", "", [], "");
      assert TrimSpace("d") == "d";
      CalmRunSucceeds(owner, w, setup, "d");
      assert EnsuredBy(owner, w, setup, Calm("d"), Calm("d")).1;
    }
  }

  /** What a run that found no metadata leaves: the next one is refused exactly
      if the builder is there without published metadata, or the metadata names
      a backend that does not load. */
  lemma StrandsExactly(owner: Ownership, w: World, setup: Setup, s: AttemptScript, t: AttemptScript)
    requires w.file.Absent?
    ensures var end := EnsuredBy(owner, w, setup, s, t).0;
            Refused(owner, end)
            <==> (end.builder && end.file.Absent?) || (end.file.Stored? && !ValidBackend(end.file.metadata.backend))
  {
    var end := EnsuredBy(owner, w, setup, s, t).0;
    RunIsSafe(owner, w, setup, s, t);
    RefusedExactly(owner, end);
  }

  /** A refused world stays as it is over any number of runs. */
  lemma {:induction false} RefusedForever(owner: Ownership, w: World, steps: seq<Step>)
    requires Refused(owner, w) && forall step | step in steps :: step.Run?
    ensures AfterAll(owner, w, steps) == w
    decreases |steps|
  {
    if steps != [] {
      var step := steps[0];
      assert EnsuredBy(owner, w, step.setup, step.first, step.second).0 == w;
      RefusedForever(owner, w, steps[1..]);
    }
  }

  /** A first run that creates the builder, fails to verify it, cannot detach it,
      or loses the metadata strands it, for every owner and every setup: here
      both verifications fail. */
  lemma FirstRunMayStrand(owner: Ownership, setup: Setup, daemon: string)
    requires TrimSpace(daemon) != ""
    ensures var unverified := Calm(daemon).(verify := Fails);
            var (end, ok, attempts) := EnsuredBy(owner, World(false, Absent), setup, unverified, unverified);
            !ok && end == World(true, Absent) && Refused(owner, end)
            && attempts == [[Locked("docker:" + TrimSpace(daemon)), Create, Detach], [Locked("docker:" + TrimSpace(daemon)), Create]]
  {
    var start := [Locked("docker:" + TrimSpace(daemon))];
    assert [] + [Create] == [Create] && start + [Create] + [Detach] == [start[0], Create, Detach];
    assert start + [Create] + [] == [start[0], Create];
    RefusedExactly(owner, World(true, Absent));
  }

  /** A daemon identity with white space or a control character inside is
      published, and then refused by every later run. */
  lemma OddBackendStrands(owner: Ownership, setup: Setup, daemon: string)
    requires TrimSpace(daemon) != "" && !ValidBackend("docker:" + TrimSpace(daemon))
    ensures var (end, ok, _) := EnsuredBy(owner, World(false, Absent), setup, Calm(daemon), Calm(daemon));
            ok && Refused(owner, end)
  {
    StrandsExactly(owner, World(false, Absent), setup, Calm(daemon), Calm(daemon));
  }
}
