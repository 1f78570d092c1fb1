/** All interleavings of the calls on one supervisor. A wait releases the lock
    while it sleeps, so it is two events, and any other may come in between. */
module OutageRuns {
  import opened Wrappers
  import opened Backoff
  import opened OutageSupervisor

  // ----------------------------------------------------------------- machine

  /** A wait that sleeps: when its timer fires, whether a retry was permitted,
      and the beginning of the incident that it waits for. */
  datatype Sleeper = Sleeper(wakeAt: int, permitted: bool, started: int)

  /** A supervisor with its stored record, the last clock reading and the waits
      that sleep. */
  datatype World = World(state: Incident, disk: Incident, clock: int, sleepers: seq<Sleeper>)

  datatype Event =
    | Failure(hint: Hint, sample: real, write: Fault)
    | BeginWait(write: Fault)
    | Wake(sleeper: nat, write: Fault)
    | Cancel(sleeper: nat)
    | Check(write: Fault)
    | Recovery(write: Fault)
    | Restart

  predicate Enabled(w: World, e: Event, now: int) {
    && w.clock <= now
    && (e.Wake? ==> e.sleeper < |w.sleepers| && w.sleepers[e.sleeper].wakeAt <= now)
    && (e.Cancel? ==> e.sleeper < |w.sleepers|)
  }

  function Without(sleepers: seq<Sleeper>, i: nat): seq<Sleeper>
    requires i < |sleepers|
  {
    sleepers[..i] + sleepers[i + 1..]
  }

  /** One locked section at clock `now`; a restart ends all waits. */
  function After(p: Policy, settings: Settings, w: World, e: Event, now: int): World
    requires Enabled(w, e, now)
  {
    var v := w.(clock := now);
    match e
    case Failure(hint, sample, f) =>
      var delay := CalculateDelay(settings, Charged(p, w.state, now).attempt, hint, now, sample);
      Saved(v, Scheduled(p, w.state, now, delay), f)
    case BeginWait(f) =>
      var current := Awaited(p, w.state);
      (match WaitFor(p, w.state, now)
       case GiveUp => Saved(v, Exhaust(current, now), f)
       case SleepUntil(wakeAt, permitted) =>
         var slept := Saved(v, current, f);
         if f.Works? then slept.(sleepers := w.sleepers + [Sleeper(wakeAt, permitted, w.state.started)]) else slept
       case _ => v.(state := current))
    case Wake(i, f) =>
      var woken := v.(sleepers := Without(w.sleepers, i));
      if w.sleepers[i].permitted then woken else Saved(woken, Exhaust(w.state, now), f)
    case Cancel(i) => v.(sleepers := Without(w.sleepers, i))
    case Check(f) => if Expires(w.state, now) then Saved(v, Exhaust(w.state, now), f) else v
    case Recovery(f) => if Resolved(w.state) == w.state then v else Saved(v, Resolved(w.state), f)
    case Restart => v.(state := Opened(p, w.disk, now), sleepers := [])
  }

  function Saved(w: World, s: Incident, f: Fault): World {
    w.(state := s, disk := Stored(w.disk, s, f))
  }

  ghost predicate Step(p: Policy, settings: Settings, w: World, e: Event, w': World) {
    Enabled(w, e, w'.clock) && w' == After(p, settings, w, e, w'.clock)
  }

  ghost predicate IsRun(p: Policy, settings: Settings, run: seq<World>, events: seq<Event>) {
    && |run| == |events| + 1
    && forall i | 0 <= i < |events| :: Step(p, settings, run[i], events[i], run[i + 1])
  }

  lemma RestOfRun(p: Policy, settings: Settings, run: seq<World>, events: seq<Event>)
    requires IsRun(p, settings, run, events) && |events| > 0
    ensures IsRun(p, settings, run[1..], events[1..]) && Step(p, settings, run[0], events[0], run[1])
    ensures run == [run[0]] + run[1..]
  {
    forall i | 0 <= i < |events[1..]| ensures Step(p, settings, run[1..][i], events[1..][i], run[1..][i + 1]) {
      assert Step(p, settings, run[i + 1], events[i + 1], run[i + 2]);
    }
  }

  // --------------------------------------------------------------- invariants

  /** What every record says under policy `p` at clock `now`. */
  ghost predicate Fits(p: Policy, s: Incident, now: int) {
    && UNSET <= s.started <= now && s.deadline == p.Deadline(s.started)
    && (s.verdict.Exhausted? ==> p.IsBounded())
    && (s.active ==>
          && s.verdict.Retrying? && s.started > UNSET && s.nextRetry >= UNSET
          && (s.permitted <==> s.deadline == UNSET || s.nextRetry < s.deadline)
          && (s.deadline != UNSET ==> s.nextRetry <= s.deadline))
  }

  /** A running incident has a retry time, and an exhausted one was exhausted at
      or after its deadline. */
  ghost predicate Due(p: Policy, s: Incident, now: int) {
    && (s.active ==> s.nextRetry > UNSET)
    && (s.verdict.Exhausted? && !s.active ==> s.deadline != UNSET && s.deadline <= s.exhaustedAt <= now)
  }

  /** A wait that may not retry sleeps to the deadline of its incident, one that
      may to a time before it. */
  ghost predicate SleepFits(p: Policy, s: Sleeper) {
    && s.started > UNSET
    && (s.permitted ==> p.IsBounded() ==> s.wakeAt < p.Deadline(s.started))
    && (!s.permitted ==> p.IsBounded() && s.wakeAt == p.Deadline(s.started))
  }

  ghost predicate Sound(p: Policy, w: World) {
    && w.clock > UNSET && Fits(p, w.state, w.clock) && Fits(p, w.disk, w.clock)
    && forall s | s in w.sleepers :: SleepFits(p, s)
  }

  ghost predicate Good(p: Policy, w: World) {
    Sound(p, w) && Due(p, w.state, w.clock) && Due(p, w.disk, w.clock)
  }

  /** A wait whose timer fires without a permitted retry. */
  predicate GivesUp(w: World, e: Event) {
    e.Wake? && e.sleeper < |w.sleepers| && !w.sleepers[e.sleeper].permitted
  }

  lemma DelayIsPositive(settings: Settings, attempt: int, hint: Hint, now: int, sample: real)
    ensures CalculateDelay(settings, attempt, hint, now, sample) > 0
  {
    DelayIsBounded(settings, attempt, hint, now, sample);
  }

  lemma ScheduleFits(p: Policy, s: Incident, now: int, delay: int)
    requires p.Valid() && now > UNSET && Fits(p, s, now) && delay > 0
    ensures Fits(p, Scheduled(p, s, now, delay), now) && Due(p, Scheduled(p, s, now, delay), now)
  {
  }

  lemma OpenedFits(p: Policy, s: Incident, now: int)
    requires p.Valid() && now > UNSET && Fits(p, s, now)
    ensures Fits(p, Opened(p, s, now), now) && (Due(p, s, now) ==> Due(p, Opened(p, s, now), now))
  {
  }

  lemma BeginFits(p: Policy, s: Incident, now: int)
    requires p.Valid() && Fits(p, s, now)
    ensures Awaited(p, s) == s
    ensures var w := WaitFor(p, s, now); w.SleepUntil? ==> SleepFits(p, Sleeper(w.wakeAt, w.permitted, s.started))
  {
  }

  lemma StepKeepsSound(p: Policy, settings: Settings, w: World, e: Event, w': World)
    requires p.Valid() && Sound(p, w) && Step(p, settings, w, e, w')
    ensures Sound(p, w')
  {
    match e
    case Failure(hint, sample, f) =>
      var attempt := Charged(p, w.state, w'.clock).attempt;
      DelayIsPositive(settings, attempt, hint, w'.clock, sample);
      ScheduleFits(p, w.state, w'.clock, CalculateDelay(settings, attempt, hint, w'.clock, sample));
    case BeginWait(f) => BeginFits(p, w.state, w'.clock);
    case Restart => OpenedFits(p, w.disk, w'.clock);
    case Wake(i, f) => assert SleepFits(p, w.sleepers[i]);
    case _ =>
  }

  /** Apart from a wait that gives up, every event keeps records due; that one
      does exactly if the record it finds on waking is itself overdue. */
  lemma StepKeepsGood(p: Policy, settings: Settings, w: World, e: Event, w': World)
    requires p.Valid() && Good(p, w) && Step(p, settings, w, e, w')
    ensures Good(p, w') <==> (GivesUp(w, e) ==> Overdue(w.state, w'.clock))
  {
    StepKeepsSound(p, settings, w, e, w');
    match e
    case Failure(hint, sample, f) =>
      var attempt := Charged(p, w.state, w'.clock).attempt;
      DelayIsPositive(settings, attempt, hint, w'.clock, sample);
      ScheduleFits(p, w.state, w'.clock, CalculateDelay(settings, attempt, hint, w'.clock, sample));
    case BeginWait(f) => BeginFits(p, w.state, w'.clock);
    case Restart => OpenedFits(p, w.disk, w'.clock);
    case Wake(i, f) => assert SleepFits(p, w.sleepers[i]);
    case _ =>
  }

  // --------------------------------------------------------------------- runs

  /** In every state of every interleaving the deadline is the one the beginning
      fixes, a retry is permitted exactly if it is due before it, and waits sleep
      to such a retry or to the deadline of the incident they began with. */
  lemma {:induction false} RunsStaySound(p: Policy, settings: Settings, run: seq<World>, events: seq<Event>)
    requires p.Valid() && IsRun(p, settings, run, events) && Sound(p, run[0])
    ensures forall w | w in run :: Sound(p, w)
  {
    if |events| > 0 {
      RestOfRun(p, settings, run, events);
      StepKeepsSound(p, settings, run[0], events[0], run[1]);
      RunsStaySound(p, settings, run[1..], events[1..]);
    }
  }

  /** The waits that gave up at event `i` found an overdue record. */
  ghost predicate WokeInTime(run: seq<World>, events: seq<Event>, i: nat)
    requires i < |events| && |run| == |events| + 1
  {
    GivesUp(run[i], events[i]) ==> Overdue(run[i].state, run[i + 1].clock)
  }

  /** A run stays good, with a retry time for each running incident and none
      exhausted before its deadline, exactly if each wait that gave up found an
      overdue record on waking. */
  lemma {:induction false} RunsStayGood(p: Policy, settings: Settings, run: seq<World>, events: seq<Event>)
    requires p.Valid() && IsRun(p, settings, run, events) && Good(p, run[0])
    ensures (forall w | w in run :: Good(p, w)) <==> (forall i | 0 <= i < |events| :: WokeInTime(run, events, i))
  {
    if |events| > 0 {
      RestOfRun(p, settings, run, events);
      StepKeepsGood(p, settings, run[0], events[0], run[1]);
      assert WokeInTime(run, events, 0) <==> Good(p, run[1]);
      assert run[1] in run;
      if Good(p, run[1]) {
        RunsStayGood(p, settings, run[1..], events[1..]);
        assert forall i | 0 <= i < |events| - 1 :: WokeInTime(run[1..], events[1..], i) <==> WokeInTime(run, events, i + 1);
        assert forall i | 0 < i < |events| :: WokeInTime(run, events, i) <==> WokeInTime(run[1..], events[1..], i - 1);
      }
    }
  }

  /** A wait that gives up and finds the incident it began with, running or not,
      finds it overdue: only a newer incident, or none, is exhausted early. */
  lemma OwnIncidentIsOverdue(p: Policy, w: World, e: Event, now: int)
    requires p.Valid() && Sound(p, w) && Enabled(w, e, now) && GivesUp(w, e) && w.state.started == w.sleepers[e.sleeper].started
    ensures Overdue(w.state, now)
  {
    assert SleepFits(p, w.sleepers[e.sleeper]);
  }

  /** A recovered incident becomes an exhausted one, without a restart, exactly
      by a wait that sleeps past the recovery without a permitted retry. */
  lemma RecoveredIsExhausted(p: Policy, settings: Settings, w: World, e: Event, w': World)
    requires p.Valid() && Sound(p, w) && Step(p, settings, w, e, w') && !e.Restart? && w.state.verdict.Recovered? && !w.state.active
    ensures w'.state.verdict.Exhausted? <==> GivesUp(w, e)
    ensures GivesUp(w, e) ==> w'.state == Exhaust(w.state, w'.clock) && w'.state.started == w.state.started
  {
    if e.Failure? { DelayIsPositive(settings, 0, e.hint, w'.clock, e.sample); }
  }

  /** An event never moves the beginning of the incident it finds running; only
      a restart may, and only to an incident the disk still remembers. */
  lemma StepKeepsIncident(p: Policy, settings: Settings, w: World, e: Event, w': World)
    requires p.Valid() && Sound(p, w) && Step(p, settings, w, e, w') && w.state.active && w'.state.active
    ensures w'.state.deadline == p.Deadline(w'.state.started)
    ensures w'.state.started == if e.Restart? then w.disk.started else w.state.started
  {
    StepKeepsSound(p, settings, w, e, w');
  }

  /** While writes land, one incident stays one incident: as long as it is
      active, its beginning and its deadline never move. */
  lemma {:induction false} IncidentNeverMoves(p: Policy, settings: Settings, run: seq<World>, events: seq<Event>)
    requires p.Valid() && IsRun(p, settings, run, events) && Sound(p, run[0])
    requires forall w | w in run :: w.state.active && w.disk == w.state
    ensures forall w | w in run :: w.state.started == run[0].state.started && w.state.deadline == run[0].state.deadline
  {
    if |events| > 0 {
      assert run[0] in run && run[1] in run;
      RestOfRun(p, settings, run, events);
      StepKeepsSound(p, settings, run[0], events[0], run[1]);
      StepKeepsIncident(p, settings, run[0], events[0], run[1]);
      IncidentNeverMoves(p, settings, run[1..], events[1..]);
    }
  }

  /** What a wait goes by when it proceeds: at once, a retry of the running
      bounded incident that is due, before its deadline; after a sleep, one that
      the incident it began with permitted before its own deadline, whatever
      record it finds; finding its own one before that deadline, it does not find
      it overdue. A wait that proceeds changes no record. */
  lemma ProceedsOnlyWhenDue(p: Policy, settings: Settings, w: World, e: Event, w': World)
    requires p.Valid() && p.IsBounded() && Sound(p, w) && Step(p, settings, w, e, w')
    ensures e.BeginWait? && WaitFor(p, w.state, w'.clock).Proceed? && w.state.active ==>
              UNSET < w.state.nextRetry <= w'.clock < w.state.deadline && w.state.permitted && w'.state == w.state
    ensures e.Wake? && !GivesUp(w, e) ==>
              var s := w.sleepers[e.sleeper];
              s.wakeAt <= w'.clock && s.wakeAt < p.Deadline(s.started) && w'.state == w.state
              && (w.state.started == s.started && w'.clock < p.Deadline(s.started) ==> !Overdue(w'.state, w'.clock))
  {
    BeginFits(p, w.state, w'.clock);
    if e.Wake? { assert SleepFits(p, w.sleepers[e.sleeper]); }
  }

  // ---------------------------------------------------------- retries and waits

  /** A failure in time counts as one more attempt and puts the next one off by
      the delay of the attempts before it, or to the deadline if that is earlier;
      a retry is permitted exactly in the first case. One at or after the deadline
      ends the incident. */
  lemma FailureDefers(p: Policy, settings: Settings, w: World, e: Event, w': World)
    requires p.Valid() && Sound(p, w) && Step(p, settings, w, e, w') && e.Failure?
    ensures var (now, s, s') := (w'.clock, w.state, w'.state);
            var (started, attempts) := if s.active then (s.started, s.attempt) else (now, 0);
            var (deadline, retry) := (p.Deadline(started), now + CalculateDelay(settings, attempts, e.hint, now, e.sample));
            && s'.started == started && s'.deadline == deadline
            && if deadline != UNSET && deadline <= now then
                 && !s'.active && s'.verdict.Exhausted? && s'.exhaustedAt == now && s'.attempt == attempts
                 && s'.nextRetry == UNSET && !s'.permitted
               else
                 && s'.active && s'.attempt == attempts + 1
                 && (s'.permitted <==> deadline == UNSET || retry < deadline)
                 && s'.nextRetry == if s'.permitted then retry else deadline
  {
    DelayIsPositive(settings, if w.state.active then w.state.attempt else 0, e.hint, w'.clock, e.sample);
  }

  function Failures(events: seq<Event>): nat {
    if events == [] then 0 else (if events[0].Failure? then 1 else 0) + Failures(events[1..])
  }

  lemma StepCounts(p: Policy, settings: Settings, w: World, e: Event, w': World)
    requires p.Valid() && Sound(p, w) && Step(p, settings, w, e, w') && !e.Restart? && w.state.active && w'.state.active
    ensures w'.state.attempt == w.state.attempt + if e.Failure? then 1 else 0
  {
    if e.Failure? { FailureDefers(p, settings, w, e, w'); }
  }

  /** Through a whole incident the attempts are the failures: waits, checks and
      cancelled waits do not count, and nothing starts the count anew. */
  lemma {:induction false} AttemptsAreFailures(p: Policy, settings: Settings, run: seq<World>, events: seq<Event>)
    requires p.Valid() && IsRun(p, settings, run, events) && Sound(p, run[0])
    requires (forall w | w in run :: w.state.active) && Restart !in events
    ensures run[|events|].state.attempt == run[0].state.attempt + Failures(events)
  {
    if |events| > 0 {
      assert run[0] in run && run[1] in run && events[0] in events;
      RestOfRun(p, settings, run, events);
      StepKeepsSound(p, settings, run[0], events[0], run[1]);
      StepCounts(p, settings, run[0], events[0], run[1]);
      AttemptsAreFailures(p, settings, run[1..], events[1..]);
    }
  }

  /** A wait goes on at once if nothing is wrong or the next attempt is due, and
      otherwise sleeps exactly to that attempt, with its permission; it reports an
      exhausted incident, and gives up one that is overdue. */
  lemma WaitsForTheRetry(p: Policy, w: World, now: int)
    requires p.Valid() && Good(p, w) && w.clock <= now
    ensures var (s, wait) := (w.state, WaitFor(p, w.state, now));
            && (wait.Reported? <==> s.verdict.Exhausted? && !s.active)
            && (wait.GiveUp? <==> s.active && s.deadline != UNSET && s.deadline <= now)
            && (wait.Proceed? <==> if s.active then s.nextRetry <= now && !wait.GiveUp? else !s.verdict.Exhausted?)
            && (wait.SleepUntil? <==> s.active && now < s.nextRetry)
            && (wait.SleepUntil? ==> wait == SleepUntil(s.nextRetry, s.permitted))
  {
  }

  /** After a recovery the incident is over, wherever it stood, and no wait is
      held up; its beginning and its attempts stay on record. */
  lemma RecoveredWaitsNoMore(p: Policy, settings: Settings, w: World, e: Event, w': World, now: int)
    requires p.Valid() && Good(p, w) && Step(p, settings, w, e, w') && e.Recovery? && w'.clock <= now
    ensures !w'.state.active && (w'.state.verdict.Recovered? <==> w.state.started > UNSET || w.state.verdict.Recovered?)
    ensures WaitFor(p, w'.state, now).Proceed?
    ensures w'.state.started == w.state.started && w'.state.attempt == w.state.attempt
  {
  }

  /** A restart resumes the stored incident if it was running, and reopens an
      exhausted one exactly if the policy waits without end or its deadline is
      still ahead; a reopened one may be retried at once. Beginning and attempts
      stay, and a record of no incident stays as it is. */
  lemma RestartResumesExactly(p: Policy, settings: Settings, w: World, w': World)
    requires p.Valid() && Sound(p, w) && Step(p, settings, w, Restart, w')
    ensures var (disk, s) := (w.disk, w'.state);
            var reopens := !disk.active && disk.verdict.Exhausted?
                           && (p.IsContinuous() || (p.IsBounded() && disk.started > UNSET && w'.clock < disk.started + p.duration));
            && (s.active <==> disk.active || reopens)
            && (reopens ==> s == disk.(active := true, verdict := Retrying, nextRetry := UNSET, permitted := true))
            && (!reopens ==> s == disk)
            && w'.disk == disk && w'.sleepers == []
  {
  }

  /** A reopened incident is marked for an immediate retry, but a wait under a
      bounded policy does not go by that: without a retry time it sleeps to the
      deadline and gives up. The wait proceeds at once exactly if the policy has
      no deadline. */
  lemma ReopenedRetriesExactly(p: Policy, settings: Settings, w: World, w': World, now: int)
    requires p.Valid() && Sound(p, w) && Step(p, settings, w, Restart, w') && !w.disk.active && w'.state.active
    requires w'.clock <= now && (p.IsBounded() ==> now < p.Deadline(w.disk.started))
    ensures w'.state.permitted
    ensures WaitFor(p, w'.state, now).Proceed? <==> p.IsContinuous()
    ensures !p.IsContinuous() ==> WaitFor(p, w'.state, now) == SleepUntil(p.Deadline(w.disk.started), false)
  {
  }

  // ----------------------------------------------- runs from a fresh supervisor

  function Fresh(now: int): World {
    World(NO_INCIDENT, NO_INCIDENT, now, [])
  }

  lemma FreshIsGood(p: Policy, now: int)
    requires p.Valid() && now > UNSET
    ensures Good(p, Fresh(now))
  {
  }

  function PlainFailure(write: Fault): Event {
    Failure(NO_HINT, 0.5, write)
  }

  /** Lost writes: from a fresh supervisor, with all records good, a restart can
      bring back an incident that ended before the running one began. */
  lemma LostWritesBringBackOldIncident(p: Policy, settings: Settings) returns (run: seq<World>, events: seq<Event>)
    requires p.Valid() && p.IsBounded()
    ensures IsRun(p, settings, run, events) && run[0] == Fresh(1) && |events| == 4
    ensures events == [PlainFailure(Works), Recovery(Fails), PlainFailure(Fails), Restart]
    ensures forall w | w in run :: Good(p, w)
    ensures run[3].state.active && run[4].state.active && run[4].state.started == 1 < run[3].state.started
  {
    events := [PlainFailure(Works), Recovery(Fails), PlainFailure(Fails), Restart];
    var w0 := Fresh(1);
    var w1 := After(p, settings, w0, events[0], 1);
    DelayIsPositive(settings, 0, NO_HINT, 1, 0.5);
    var w2 := After(p, settings, w1, events[1], 1);
    var w3 := After(p, settings, w2, events[2], 2);
    DelayIsPositive(settings, 0, NO_HINT, 2, 0.5);
    var w4 := After(p, settings, w3, events[3], 2);
    run := [w0, w1, w2, w3, w4];
    FreshIsGood(p, 1);
    RunsStayGood(p, settings, run, events);
  }

  /** A failure whose hint defers the next attempt past the deadline. */
  function FinalFailure(p: Policy): Event {
    Failure(Hint(p.duration, UNSET), 0.5, Works)
  }

  /** From a fresh supervisor: an incident that begins while an earlier one is
      being waited out is exhausted by the earlier wait, before its own deadline,
      and the next start reopens it with no retry time. */
  lemma SleepExhaustsNewerIncident(p: Policy, settings: Settings) returns (run: seq<World>, events: seq<Event>)
    requires p.Valid() && p.IsBounded() && p.duration > 1
    ensures IsRun(p, settings, run, events) && run[0] == Fresh(1) && |events| == 6
    ensures events == [FinalFailure(p), BeginWait(Works), Recovery(Works), PlainFailure(Works), Wake(0, Works), Restart]
    ensures run[4].state.active && !Overdue(run[4].state, run[5].clock)
    ensures run[5].state == Exhaust(run[4].state, run[5].clock) && !Good(p, run[5])
    ensures run[6].state.active && run[6].state.started == run[4].state.started && run[6].state.nextRetry == UNSET
  {
    events := [FinalFailure(p), BeginWait(Works), Recovery(Works), PlainFailure(Works), Wake(0, Works), Restart];
    var d := p.duration;
    var w0 := Fresh(1);
    DelayIsBounded(settings, 0, Hint(d, UNSET), 1, 0.5);
    var w1 := After(p, settings, w0, events[0], 1);
    assert w1.state.nextRetry == 1 + d && !w1.state.permitted;
    var w2 := After(p, settings, w1, events[1], 1);
    assert w2.sleepers == [Sleeper(1 + d, false, 1)];
    var w3 := After(p, settings, w2, events[2], d);
    DelayIsPositive(settings, 0, NO_HINT, d, 0.5);
    var w4 := After(p, settings, w3, events[3], d);
    var w5 := After(p, settings, w4, events[4], 1 + d);
    var w6 := After(p, settings, w5, events[5], 1 + d);
    run := [w0, w1, w2, w3, w4, w5, w6];
  }

  /** From a fresh supervisor: an outage that ended well before its deadline is
      exhausted by the wait that slept through the recovery. */
  lemma SleepUndoesRecovery(p: Policy, settings: Settings) returns (run: seq<World>, events: seq<Event>)
    requires p.Valid() && p.IsBounded()
    ensures IsRun(p, settings, run, events) && run[0] == Fresh(1) && |events| == 4
    ensures events == [FinalFailure(p), BeginWait(Works), Recovery(Works), Wake(0, Works)]
    ensures run[3].clock == 1 && run[3].state.verdict.Recovered? && run[4].state == Exhaust(run[3].state, 1 + p.duration)
    ensures Reports(p, run[4].state) && (forall w | w in run :: Good(p, w))
  {
    events := [FinalFailure(p), BeginWait(Works), Recovery(Works), Wake(0, Works)];
    var d := p.duration;
    var w0 := Fresh(1);
    DelayIsBounded(settings, 0, Hint(d, UNSET), 1, 0.5);
    var w1 := After(p, settings, w0, events[0], 1);
    var w2 := After(p, settings, w1, events[1], 1);
    assert w2.sleepers == [Sleeper(1 + d, false, 1)];
    var w3 := After(p, settings, w2, events[2], 1);
    var w4 := After(p, settings, w3, events[3], 1 + d);
    run := [w0, w1, w2, w3, w4];
    FreshIsGood(p, 1);
    RunsStayGood(p, settings, run, events);
  }
}
