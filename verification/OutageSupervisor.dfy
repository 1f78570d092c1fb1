/** The durable record of one external outage: when it began, when the next
    attempt is due, and when waiting is over. Instants are nanoseconds and 0 is
    the unset time. */
module OutageSupervisor {
  import opened Wrappers
  import opened Backoff

  // ------------------------------------------------------------------ policy

  datatype Kind = Unnamed | Off | Continuous | Bounded | Other

  datatype Policy = Policy(kind: Kind, mode: Kind, duration: int) {
    predicate Valid() {
      match if kind.Unnamed? then mode else kind
      case Off => duration == 0
      case Continuous => duration == 0
      case Bounded => duration > 0
      case _ => false
    }

    function EffectiveKind(): Kind {
      if !kind.Unnamed? then kind else if !mode.Unnamed? then mode else Off
    }

    predicate IsOff() { EffectiveKind().Off? }

    predicate IsContinuous() { EffectiveKind().Continuous? }

    predicate IsBounded() { EffectiveKind().Bounded? && duration > 0 }

    /** The bounded deadline of an incident that began at `start`. */
    function Deadline(start: int): int {
      if !IsBounded() || start == UNSET then UNSET else start + duration
    }
  }

  // ---------------------------------------------------------------- incident

  datatype Verdict = NoVerdict | Retrying | Exhausted | Recovered

  datatype Incident = Incident(active: bool, verdict: Verdict, started: int, attempt: nat, nextRetry: int,
                               permitted: bool, deadline: int, exhaustedAt: int)

  const NO_INCIDENT := Incident(false, NoVerdict, UNSET, 0, UNSET, false, UNSET, UNSET)

  function Exhaust(s: Incident, now: int): Incident {
    s.(active := false, verdict := Exhausted, nextRetry := UNSET, permitted := false, exhaustedAt := now)
  }

  /** What a starting controller makes of the stored record. */
  function Opened(p: Policy, stored: Incident, now: int): Incident {
    var s := stored.(deadline := p.Deadline(stored.started));
    if stored.active then s
    else if !stored.verdict.Exhausted? || p.IsOff() then stored
    else if p.IsContinuous() || (s.deadline != UNSET && now < s.deadline)
    then s.(active := true, verdict := Retrying, nextRetry := UNSET, permitted := true)
    else s
  }

  /** The record a typed failure is scheduled against: the running incident or
      a new one that begins now. */
  function Charged(p: Policy, s: Incident, now: int): Incident {
    var current := if s.active then s else NO_INCIDENT.(active := true, verdict := Retrying, started := now);
    current.(deadline := p.Deadline(current.started))
  }

  predicate Overdue(s: Incident, now: int) {
    s.deadline != UNSET && s.deadline <= now
  }

  function Scheduled(p: Policy, s: Incident, now: int, delay: int): Incident {
    var current := Charged(p, s, now);
    if Overdue(current, now) then Exhaust(current, now)
    else
      var (wait, permitted) := ClampDelayToDeadline(delay, now, current.deadline);
      current.(attempt := current.attempt + 1, nextRetry := now + wait, permitted := permitted)
  }

  function Resolved(s: Incident): Incident {
    if s.started == UNSET || s.verdict.Recovered? then s
    else s.(active := false, verdict := Recovered, nextRetry := UNSET, permitted := false)
  }

  datatype Wait = Proceed | Reported | GiveUp | SleepUntil(wakeAt: int, permitted: bool)

  /** How a wait that begins now will go. */
  function WaitFor(p: Policy, s: Incident, now: int): Wait {
    var current := s.(deadline := p.Deadline(s.started));
    if s.verdict.Exhausted? && !s.active && !p.IsOff() then Reported
    else if !s.active then Proceed
    else if Overdue(current, now) then GiveUp
    else
      var bounded := current.deadline != UNSET && (s.nextRetry == UNSET || current.deadline < s.nextRetry);
      var wakeAt := if bounded then current.deadline else s.nextRetry;
      if wakeAt == UNSET || wakeAt <= now then Proceed else SleepUntil(wakeAt, !bounded && s.permitted)
  }

  /** The record that an active incident is waited for under the policy. */
  function Awaited(p: Policy, s: Incident): Incident {
    if s.active then s.(deadline := p.Deadline(s.started)) else s
  }

  /** The stored record after a write of `s`. */
  function Stored(disk: Incident, s: Incident, f: Fault): Incident {
    if Lands(f) then s else disk
  }

  /** A record that is still reported as exhausted. */
  predicate Reports(p: Policy, s: Incident) {
    s.verdict.Exhausted? && !s.active && !p.IsOff()
  }

  predicate Expires(s: Incident, now: int) {
    s.active && Overdue(s, now)
  }

  // -------------------------------------------------------------- supervisor

  datatype Answer = Ready | IncidentExhausted | Error | Cancelled

  class Supervisor {
    const policy: Policy
    const settings: Settings
    var state: Incident
    var disk: Incident

    /** Reads the stored record; `stored` is the all-zero record when no file exists. */
    constructor (policy: Policy, settings: Settings, stored: Incident, now: int)
      requires policy.Valid()
      ensures this.policy == policy && this.settings == Normalize(settings) && disk == stored && state == Opened(policy, stored, now)
    {
      this.policy, this.settings, this.disk := policy, Normalize(settings), stored;
      this.state := stored;
      new;
      if state.active {
        ApplyPolicyDeadline();
      } else if state.verdict.Exhausted? && !policy.IsOff() {
        ApplyPolicyDeadline();
        if policy.IsContinuous() || (state.deadline != UNSET && now < state.deadline) {
          state := state.(active := true, verdict := Retrying, nextRetry := UNSET, permitted := true);
        }
      }
    }

    method ApplyPolicyDeadline()
      modifies `state
      ensures state == old(state).(deadline := policy.Deadline(old(state).started))
    {
      state := state.(deadline := if policy.IsBounded() then policy.Deadline(state.started) else UNSET);
    }

    /** Atomic replacement of the stored record. */
    method Persist(f: Fault) returns (ok: bool)
      modifies `disk
      ensures disk == Stored(old(disk), state, f) && ok == f.Works?
    {
      if Lands(f) { disk := state; }
      ok := f.Works?;
    }

    method ExhaustLocked(now: int, f: Fault)
      modifies `state, `disk
      ensures state == Exhaust(old(state), now) && disk == Stored(old(disk), state, f)
    {
      state := state.(active := false, verdict := Exhausted, nextRetry := UNSET, permitted := false);
      state := state.(exhaustedAt := now);
      var _ := Persist(f);
    }

    method Schedule(retryable: bool, hint: Hint, now: int, sample: real, f: Fault) returns (r: Answer)
      modifies `state, `disk
      ensures !retryable ==> r == Error && state == old(state) && disk == old(disk)
      ensures retryable ==>
                var charged := Charged(policy, old(state), now);
                && state == Scheduled(policy, old(state), now, CalculateDelay(settings, charged.attempt, hint, now, sample))
                && disk == Stored(old(disk), state, f)
                && r == if Overdue(charged, now) then IncidentExhausted else if f.Works? then Ready else Error
    {
      if !retryable { return Error; }
      if !state.active {
        state := NO_INCIDENT.(active := true, verdict := Retrying, started := now);
      }
      ApplyPolicyDeadline();
      if state.deadline != UNSET && state.deadline <= now {
        ExhaustLocked(now, f);
        return IncidentExhausted;
      }
      var delay, permitted := CalculateDelay(settings, state.attempt, hint, now, sample), true;
      if state.deadline != UNSET {
        var clamped := ClampDelayToDeadline(delay, now, state.deadline);
        delay, permitted := clamped.0, clamped.1;
      }
      state := state.(attempt := state.attempt + 1);
      state := state.(nextRetry := now + delay, permitted := permitted);
      var ok := Persist(f);
      r := if ok then Ready else Error;
    }

    /** The first locked half of a wait, up to the timer. It writes if it gives
        the incident up or goes to sleep, and sleeps only if the write works. */
    method BeginWait(now: int, f: Fault) returns (w: Wait, r: Answer)
      modifies `state, `disk
      ensures w == WaitFor(policy, old(state), now)
      ensures state == if w.GiveUp? then Exhaust(Awaited(policy, old(state)), now) else Awaited(policy, old(state))
      ensures disk == if w.GiveUp? || w.SleepUntil? then Stored(old(disk), state, f) else old(disk)
      ensures r == if w.Proceed? || (w.SleepUntil? && f.Works?) then Ready else if w.SleepUntil? then Error else IncidentExhausted
    {
      if state.verdict.Exhausted? && !state.active && !policy.IsOff() { return Reported, IncidentExhausted; }
      if !state.active { return Proceed, Ready; }
      ApplyPolicyDeadline();
      if state.deadline != UNSET && state.deadline <= now {
        ExhaustLocked(now, f);
        return GiveUp, IncidentExhausted;
      }
      var wakeAt, permitted := state.nextRetry, state.permitted;
      if state.deadline != UNSET && (wakeAt == UNSET || state.deadline < wakeAt) {
        wakeAt, permitted := state.deadline, false;
      }
      if wakeAt == UNSET || wakeAt <= now { return Proceed, Ready; }
      var ok := Persist(f);
      return SleepUntil(wakeAt, permitted), if ok then Ready else Error;
    }

    /** The second half, after the timer: a wait that was not for a retry gives up
        whatever incident it finds. */
    method EndWait(permitted: bool, now: int, f: Fault) returns (r: Answer)
      modifies `state, `disk
      ensures permitted ==> r.Ready? && state == old(state) && disk == old(disk)
      ensures !permitted ==> r.IncidentExhausted? && state == Exhaust(old(state), now) && disk == Stored(old(disk), state, f)
    {
      if permitted { return Ready; }
      ExhaustLocked(now, f);
      r := IncidentExhausted;
    }

    /** A whole wait that nobody else interrupts. `woken` is the clock when the
        timer fires, which is never early. */
    method WaitUntilReady(now: int, woken: int, cancelled: bool, f: Fault, g: Fault) returns (r: Answer)
      requires WaitFor(policy, state, now).SleepUntil? ==> WaitFor(policy, state, now).wakeAt <= woken
      modifies `state, `disk
      ensures var w, current := WaitFor(policy, old(state), now), Awaited(policy, old(state));
              match w
              case Proceed => r.Ready? && state == current
              case Reported => r.IncidentExhausted? && state == current
              case GiveUp => r.IncidentExhausted? && state == Exhaust(current, now)
              case SleepUntil(_, permitted) =>
                if !f.Works? then r.Error? && state == current
                else if cancelled then r.Cancelled? && state == current
                else if permitted then r.Ready? && state == current
                else r.IncidentExhausted? && state == Exhaust(current, woken)
    {
      var w;
      w, r := BeginWait(now, f);
      if !w.SleepUntil? || r.Error? { return; }
      if cancelled { return Cancelled; }
      r := EndWait(w.permitted, woken, g);
    }

    method CheckDeadline(now: int, f: Fault) returns (r: Answer)
      modifies `state, `disk
      ensures state == if Expires(old(state), now) then Exhaust(old(state), now) else old(state)
      ensures disk == if Expires(old(state), now) then Stored(old(disk), state, f) else old(disk)
      ensures r == if Reports(policy, old(state)) || Expires(old(state), now) then IncidentExhausted else Ready
    {
      if state.verdict.Exhausted? && !state.active && !policy.IsOff() { return IncidentExhausted; }
      if !state.active || state.deadline == UNSET { return Ready; }
      if now < state.deadline { return Ready; }
      ExhaustLocked(now, f);
      r := IncidentExhausted;
    }

    method MarkRecovered(f: Fault) returns (r: Answer)
      modifies `state, `disk
      ensures state == Resolved(old(state))
      ensures disk == if Resolved(old(state)) == old(state) then old(disk) else Stored(old(disk), state, f)
      ensures r == if Resolved(old(state)) == old(state) || f.Works? then Ready else Error
    {
      if state.started == UNSET || state.verdict.Recovered? { return Ready; }
      state := state.(active := false, verdict := Recovered, nextRetry := UNSET, permitted := false);
      var ok := Persist(f);
      r := if ok then Ready else Error;
    }
  }
}
