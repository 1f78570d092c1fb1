/** What runs of starts, checks, applied updates and restarts do to the admission
    block and to the last resolved package. */
module PrebuiltRuns {
  import opened PrebuiltAdmission
  import opened PrebuiltOutcomes
  import opened Wrappers

  datatype Step = Restart | Ensure(start: EnsureScript) | Check(check: CheckScript) | Apply(update: ApplyScript)

  function StepBy(w: World, step: Step): (World, Report) {
    match step
    case Restart => (w.(block := false), SUCCESS)
    case Ensure(s) => EnsuredBy(w, s)
    case Check(s) => CheckedBy(w, s)
    case Apply(s) => AppliedBy(w, s)
  }

  function After(w: World, steps: seq<Step>): World {
    if steps == [] then w
    else StepBy(After(w, steps[..|steps| - 1]), steps[|steps| - 1]).0
  }

  /** What step `i` of a run did. */
  function ReportOf(w: World, steps: seq<Step>, i: nat): Report
    requires i < |steps|
  {
    StepBy(After(w, steps[..i]), steps[i]).1
  }

  predicate WritesWork(step: Step) {
    match step
    case Restart => true
    case Ensure(s) => s.adopt.Works? && s.shifted.Works? && s.noted.Works? && s.announced.Works? && s.failed.Works? && s.finish.Works?
    case Check(s) => s.shifted.Works? && s.noted.Works? && s.failed.Works? && s.finish.Works?
    case Apply(s) => s.failed.Works? && s.finish.Works?
  }

  predicate Readable(step: Step) {
    match step
    case Restart => true
    case Ensure(s) => s.readable
    case Check(s) => s.readable
    case Apply(s) => s.readable
  }

  /** The state could be read and every write works. */
  predicate Untroubled(step: Step) {
    Readable(step) && WritesWork(step)
  }

  /** The configured update time can be scheduled. */
  predicate Parses(step: Step) {
    match step
    case Restart => true
    case Ensure(s) => s.parses
    case Check(s) => s.parses
    case Apply(s) => s.parses
  }

  /** The report of a step that activated a package, or found the current one
      confirmed. */
  predicate Cleared(r: Report) {
    r.adopted.Some? || r.confirmed
  }

  /** The step finds the active package, or the one it asks for, critically
      revoked. */
  predicate Finds(w: World, step: Step) {
    match step
    case Restart => false
    case Ensure(s) => StartFinds(w, s)
    case Check(s) => CheckFinds(w, s)
    case Apply(s) => ApplyFinds(w, s)
  }

  /** The step activates a package, or confirms the current one. */
  predicate Clears(w: World, step: Step) {
    match step
    case Restart => false
    case Ensure(s) => StartActivates(w, s)
    case Check(s) => CheckConfirms(w, s)
    case Apply(s) => StillOffered(w, s) && s.activated
  }

  /** It does, and the time of the next check can be scheduled. */
  predicate Lifts(w: World, step: Step) {
    Clears(w, step) && Parses(step)
  }

  /** What steps report is what they find and do. */
  lemma StepReports(w: World, step: Step)
    ensures var r := StepBy(w, step).1;
            (r.revoked <==> Finds(w, step)) && (Cleared(r) <==> Clears(w, step))
  {
    match step
    case Restart =>
    case Ensure(s) => StartReports(w, s);
    case Check(s) => CheckReports(w, s);
    case Apply(s) => ApplyReports(w, s);
  }

  predicate Recorded(w: World) {
    w.disk.Some? && w.disk.value.blocked
  }

  // -------------------------------------------------- the record of a revocation

  /** One step: the record stands afterwards exactly if nothing cleared it and
      it stood before or was made. An activation whose time cannot be scheduled
      clears nothing on disk. */
  lemma StepRecords(w: World, step: Step)
    requires Untroubled(step)
    ensures Recorded(StepBy(w, step).0) <==> !Lifts(w, step) && (Recorded(w) || Finds(w, step))
  {
    StepReports(w, step);
    match step
    case Restart =>
    case Ensure(s) => EnsureRecords(w, s);
    case Check(s) => CheckRecords(w, s);
    case Apply(s) =>
  }

  /** A state that the disk holds, or the fresh one that a missing file means. */
  ghost predicate Holds(w: World, state: Policy) {
    Known(w) == state
  }

  lemma ResolutionRecords(w: World, state: Policy, revoked: bool, tolerated: bool, s: EnsureScript)
    requires s.announced.Works? && s.failed.Works? && s.finish.Works? && (revoked ==> state.blocked && w.block)
    ensures var (w', r) := ResolvedBy(w, state, revoked, tolerated, s);
            && (Recorded(w') <==> !(Cleared(r) && s.parses) && (state.blocked || r.revoked))
            && (revoked ==> r.revoked)
            && w'.block == (if r.adopted.Some? then false else if r.revoked && !revoked then true else w.block)
  {
  }

  lemma StatusRecords(w: World, state: Policy, s: EnsureScript)
    requires Untroubled(Ensure(s)) && Holds(w, state) && w.block == state.blocked
    ensures var (w', r) := CurrentBy(w, state, s);
            && (Recorded(w') <==> !(Cleared(r) && s.parses) && (state.blocked || r.revoked))
            && w'.block == (!Cleared(r) && (state.blocked || r.revoked))
  {
    var blocked := state.(blocked := true);
    var tolerated := !s.force && s.current == Some(true);
    ResolutionRecords(w, state, false, tolerated, s);
    ResolutionRecords(w, state, false, false, s);
    ResolutionRecords(Written(Restored(w, blocked), blocked, s.noted), blocked, true, tolerated, s);
  }

  lemma BootstrapHolds(w: World, state: Policy, s: EnsureScript)
    requires s.adopt.Works? && s.shifted.Works? && Holds(w, state)
    ensures var (w', next, ok) := BootstrappedBy(w, state, s);
            Holds(w', next) && next.blocked == state.blocked && w'.block == w.block && (ok || w' == w)
  {
  }

  lemma EnsureRecords(w: World, s: EnsureScript)
    requires Untroubled(Ensure(s))
    ensures var (w', r) := EnsuredBy(w, s);
            && (Recorded(w') <==> !(Cleared(r) && s.parses) && (Recorded(w) || r.revoked))
            && (s.entered ==> w'.block == (!Cleared(r) && (Recorded(w) || r.revoked)))
            && (!s.entered ==> w' == w)
  {
    if s.entered {
      var state := Known(w);
      BootstrapHolds(Restored(w, state), state, s);
      var (w1, next, ok) := BootstrappedBy(Restored(w, state), state, s);
      if ok { StatusRecords(w1, next, s); }
    }
  }

  lemma ComparisonRecords(w: World, state: Policy, revoked: bool, s: CheckScript)
    requires s.failed.Works? && s.finish.Works? && Holds(w, state) && (revoked ==> state.blocked && w.block)
    ensures var (w', r) := ComparedBy(w, state, revoked, s);
            && (Recorded(w') <==> !Cleared(r) && (state.blocked || r.revoked)) && (Cleared(r) ==> s.parses)
            && w'.block == (!Cleared(r) && (w.block || r.revoked)) && (revoked ==> r.revoked)
  {
  }

  lemma CheckRecords(w: World, s: CheckScript)
    requires Untroubled(Check(s))
    ensures var (w', r) := CheckedBy(w, s);
            && (Recorded(w') <==> !Cleared(r) && (Recorded(w) || r.revoked)) && (Cleared(r) ==> s.parses)
            && (Cleared(r) || r.revoked || w'.block == w.block) && (Cleared(r) ==> !w'.block) && (!Cleared(r) && r.revoked ==> w'.block)
  {
    var (w1, state, ok) := ShiftedBy(w, Known(w), s.shift, s.shifted);
    var blocked := state.(blocked := true);
    ComparisonRecords(w1, state, false, s);
    ComparisonRecords(Written(Restored(w1, blocked), blocked, s.noted), blocked, true, s);
  }

  /** Whether a step found a revocation, and whether it lifted the block. */
  datatype Mark = Mark(found: bool, lifted: bool)

  function MarksOf(w: World, steps: seq<Step>): (marks: seq<Mark>)
    ensures |marks| == |steps|
  {
    if steps == [] then []
    else
      var n := |steps| - 1;
      var before := After(w, steps[..n]);
      MarksOf(w, steps[..n]) + [Mark(Finds(before, steps[n]), Lifts(before, steps[n]))]
  }

  /** A revocation was found, or stood at the start, and nothing lifted it from
      then on. */
  ghost predicate RevokedSinceLifted(stood: bool, marks: seq<Mark>) {
    exists i | -1 <= i < |marks| :: StandsFrom(stood, marks, i)
  }

  ghost predicate StandsFrom(stood: bool, marks: seq<Mark>, i: int)
    requires -1 <= i < |marks|
  {
    && (if i == -1 then stood else marks[i].found)
    && forall j | 0 <= j < |marks| && i <= j :: !marks[j].lifted
  }

  lemma PrefixReports(w: World, steps: seq<Step>, n: nat, i: nat)
    requires i < n <= |steps|
    ensures ReportOf(w, steps[..n], i) == ReportOf(w, steps, i) && steps[..n][i] == steps[i]
  {
    assert steps[..n][..i] == steps[..i];
  }

  /** The last step decides, or leaves it to the others. */
  lemma MarksExtend(stood: bool, marks: seq<Mark>, last: Mark)
    ensures RevokedSinceLifted(stood, marks + [last])
            <==> !last.lifted && (RevokedSinceLifted(stood, marks) || last.found)
  {
    var n, all := |marks|, marks + [last];
    assert all[n] == last && forall i | 0 <= i < n :: all[i] == marks[i];
    if i :| -1 <= i <= n && StandsFrom(stood, all, i) {
      assert !all[n].lifted;
      if i < n { assert StandsFrom(stood, marks, i); }
    }
    if !last.lifted {
      if last.found { assert StandsFrom(stood, all, n); }
      if i :| -1 <= i < n && StandsFrom(stood, marks, i) { assert StandsFrom(stood, all, i); }
    }
  }

  /** Over any run in which states are read and writes land: a revocation is on
      disk at the end exactly if one was found, or stood at the start, and no
      activation or confirmation has lifted it since. */
  lemma {:induction false} RecordedExactly(w: World, steps: seq<Step>)
    requires forall step | step in steps :: Untroubled(step)
    ensures Recorded(After(w, steps)) <==> RevokedSinceLifted(Recorded(w), MarksOf(w, steps))
  {
    if steps == [] {
      assert Recorded(w) ==> StandsFrom(Recorded(w), [], -1);
    } else {
      var n := |steps| - 1;
      RecordedExactly(w, steps[..n]);
      var before := After(w, steps[..n]);
      StepRecords(before, steps[n]);
      MarksExtend(Recorded(w), MarksOf(w, steps[..n]), Mark(Finds(before, steps[n]), Lifts(before, steps[n])));
    }
  }

  // ------------------------------------------------------------------ the block

  predicate Starts(step: Step) {
    step.Ensure? && step.start.entered
  }

  /** The process that runs at the end has gone through a start that read the
      state. */
  predicate Started(steps: seq<Step>) {
    steps != []
    && var n := |steps| - 1;
    !steps[n].Restart? && (Starts(steps[n]) || Started(steps[..n]))
  }

  lemma StepBlocks(w: World, step: Step)
    requires Untroubled(step) && Parses(step) && !step.Restart?
    ensures Starts(step) || (w.block <==> Recorded(w)) ==> (StepBy(w, step).0.block <==> Recorded(StepBy(w, step).0))
    ensures (w.block ==> Recorded(w)) ==> (StepBy(w, step).0.block ==> Recorded(StepBy(w, step).0))
  {
    match step
    case Ensure(s) => EnsureRecords(w, s);
    case Check(s) => CheckRecords(w, s);
    case Apply(s) =>
  }

  /** A critical revocation blocks at once in the process that finds it, even if
      it cannot be written. */
  lemma RevocationBlocks(w: World, step: Step)
    requires Finds(w, step) && !Clears(w, step)
    ensures StepBy(w, step).0.block
    ensures Untroubled(step) ==> Recorded(StepBy(w, step).0)
  {
    StepReports(w, step);
    if Untroubled(step) { StepRecords(w, step); }
    match step
    case Ensure(s) =>
      var state := if s.readable then Known(w) else FRESH;
      var (w1, next, ok) := BootstrappedBy(Restored(w, state), state, s);
      RevocationBlocksNow(w1, next, s);
    case Check(s) =>
    case Apply(s) =>
  }

  lemma RevocationBlocksNow(w: World, state: Policy, s: EnsureScript)
    requires CurrentBy(w, state, s).1.revoked && !Cleared(CurrentBy(w, state, s).1)
    ensures CurrentBy(w, state, s).0.block
  {
  }

  /** In a process that has started, admissions are blocked exactly if the
      revocation is on disk; before that, never without a record. */
  lemma {:induction false} BlockFollowsRecord(w: World, steps: seq<Step>)
    requires forall step | step in steps :: Untroubled(step) && Parses(step)
    requires w.block ==> Recorded(w)
    ensures After(w, steps).block ==> Recorded(After(w, steps))
    ensures Started(steps) ==> (After(w, steps).block <==> Recorded(After(w, steps)))
  {
    if steps != [] {
      var n := |steps| - 1;
      BlockFollowsRecord(w, steps[..n]);
      if !steps[n].Restart? { StepBlocks(After(w, steps[..n]), steps[n]); }
    }
  }

  /** Both together: from its first start on, a process blocks exactly while a
      revocation has been found and not lifted, restarts included. */
  lemma RevocationSticks(w: World, steps: seq<Step>)
    requires forall step | step in steps :: Untroubled(step) && Parses(step)
    requires (w.block ==> Recorded(w)) && Started(steps)
    ensures After(w, steps).block <==> RevokedSinceLifted(Recorded(w), MarksOf(w, steps))
  {
    RecordedExactly(w, steps);
    BlockFollowsRecord(w, steps);
  }

  // -------------------------------------------------------- the last resolved

  /** The package came from the start of the run, from the receipt that a start
      adopted, or from an activation; or a state was lost on the way. */
  ghost predicate ComesFrom(w: World, steps: seq<Step>, last: Option<Resolved>) {
    || last == Known(w).last
    || exists i | 0 <= i < |steps| :: NamedAt(w, steps, i, last)
  }

  ghost predicate NamedAt(w: World, steps: seq<Step>, i: nat, last: Option<Resolved>)
    requires i < |steps|
  {
    || (last.Some? && ReportOf(w, steps, i).adopted == last)
    || (steps[i].Ensure? && steps[i].start.receipt == last)
    || (last.None? && steps[i].Ensure? && !steps[i].start.readable)
  }

  lemma StepNames(w: World, step: Step)
    ensures var (w', r) := StepBy(w, step);
            || Known(w').last == Known(w).last
            || (Known(w').last.Some? && r.adopted == Known(w').last)
            || (step.Ensure? && step.start.receipt == Known(w').last)
            || (Known(w').last.None? && step.Ensure? && !step.start.readable)
  {
    match step
    case Restart =>
    case Ensure(s) => EnsureNames(w, s);
    case Check(s) =>
    case Apply(s) =>
  }

  lemma EnsureNames(w: World, s: EnsureScript)
    ensures var (w', r) := EnsuredBy(w, s);
            || Known(w').last == Known(w).last
            || (Known(w').last.Some? && r.adopted == Known(w').last)
            || s.receipt == Known(w').last
            || (Known(w').last.None? && !s.readable)
  {
    if s.entered {
      var state := if s.readable then Known(w) else FRESH;
      var w0 := Restored(w, state);
      BootstrapNames(w0, state, s);
      var (w1, next, ok) := BootstrappedBy(w0, state, s);
      if ok { CurrentNames(w1, next, s); }
    }
  }

  lemma BootstrapNames(w: World, state: Policy, s: EnsureScript)
    ensures var (w', next, ok) := BootstrappedBy(w, state, s);
            && (next.last == state.last || (state.localHash == "" && next.last == s.receipt))
            && (Known(w').last == Known(w).last || Known(w').last == state.last || (state.localHash == "" && Known(w').last == s.receipt))
  {
  }

  lemma CurrentNames(w: World, state: Policy, s: EnsureScript)
    ensures var (w', r) := CurrentBy(w, state, s);
            Known(w').last == Known(w).last || Known(w').last == state.last || (r.adopted.Some? && Known(w').last == r.adopted)
  {
  }

  /** A check, start or adoption that clears nothing leaves the last resolved
      package alone; only the first start fills it from the receipt. */
  lemma FailureKeepsLastResolved(w: World, step: Step)
    requires Readable(step) && !Clears(w, step)
    ensures var last := Known(StepBy(w, step).0).last;
            last == Known(w).last || (Starts(step) && Known(w).localHash == "" && last == step.start.receipt)
  {
    StepReports(w, step);
    match step
    case Restart =>
    case Ensure(s) => if s.entered { StartKeepsLastResolved(w, s); }
    case Check(s) =>
    case Apply(s) =>
  }

  lemma StartKeepsLastResolved(w: World, s: EnsureScript)
    requires s.entered && s.readable && EnsuredBy(w, s).1.adopted.None?
    ensures var last := Known(EnsuredBy(w, s).0).last;
            last == Known(w).last || (Known(w).localHash == "" && last == s.receipt)
  {
    var w0 := Restored(w, Known(w));
    BootstrapNames(w0, Known(w), s);
    var (w1, next, ok) := BootstrappedBy(w0, Known(w), s);
    if ok { CurrentNames(w1, next, s); }
  }

  /** However reads and writes go: the last resolved package is never one that
      was neither activated nor in a receipt; failed checks and adoptions leave
      it alone, and it gets lost only through an unreadable state. */
  lemma {:induction false} LastResolvedComesFrom(w: World, steps: seq<Step>)
    ensures ComesFrom(w, steps, Known(After(w, steps)).last)
  {
    if steps != [] {
      var n := |steps| - 1;
      var before := steps[..n];
      LastResolvedComesFrom(w, before);
      StepNames(After(w, before), steps[n]);
      var last := Known(After(w, steps)).last;
      if last != Known(After(w, before)).last {
        assert NamedAt(w, steps, n, last);
      } else if i :| 0 <= i < n && NamedAt(w, before, i, last) {
        PrefixReports(w, steps, n, i);
        assert NamedAt(w, steps, i, last);
      }
    }
  }

  // --------------------------------------------- where a block ends or is lost

  /** What lifts a block leaves the state naming the package that lifted it:
      the activated one, or the unchanged current one. */
  lemma LiftedByResolution(w: World, step: Step)
    requires Untroubled(step) && Parses(step) && Clears(w, step)
    ensures var (w', r) := StepBy(w, step);
            && !w'.block && !Recorded(w') && w'.disk.Some? && w'.disk.value.pending.None?
            && w'.disk.value.last == if step.Check? then Known(w).last else r.adopted
  {
    StepReports(w, step);
    StepRecords(w, step);
    StepBlocks(w, step);
  }

  /** A state that cannot be read counts as a fresh one: only a new revocation
      blocks after it, and the old record is lost with the next write. */
  lemma UnreadableStateForgets(w: World, s: EnsureScript)
    requires s.entered && !s.readable && WritesWork(Ensure(s)) && !StartActivates(w, s)
    ensures var w' := EnsuredBy(w, s).0;
            && (w'.block <==> StartFinds(w, s))
            && (w'.disk != w.disk ==> (Recorded(w') <==> StartFinds(w, s)))
  {
    StartReports(w, s);
  }

  /** A start that fails before it reaches the state leaves a restarted process
      unblocked, whatever is recorded. */
  lemma EarlyFailureStaysOpen(w: World, s: EnsureScript)
    requires Recorded(w) && Untroubled(Ensure(s)) && !StartActivates(w, s)
    ensures EnsuredBy(w.(block := false), s).0.block <==> s.entered
  {
    StartReports(w.(block := false), s);
    EnsureRecords(w.(block := false), s);
  }

  /** A check that finds the active package critically revoked lifts the record
      it has just made, without any replacement, exactly if the catalog still
      resolves to the same manifest for the same configuration. */
  lemma CheckMayLiftItsOwnRecord(w: World, s: CheckScript)
    requires Untroubled(Check(s)) && s.due && s.parses && s.status.CriticallyRevoked? && Known(w).last.Some?
    ensures var (w', r) := CheckedBy(w, s);
            && r.revoked && r.adopted.None?
            && (!w'.block && !Recorded(w') && Known(w').last == Known(w).last
                <==> s.answer.Found? && s.answer.package.manifest == Known(w).last.value.manifest && Known(w).localHash == s.localHash)
  {
    CheckRecords(w, s);
  }
}
