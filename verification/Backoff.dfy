/** Exponential retry delays in real arithmetic: jitter, floor, cap and server
    hints. Durations are whole nanoseconds; instant 0 is the unset time. */
module Backoff {
  const SECOND: int := 1_000_000_000
  const UNSET: int := 0

  datatype Settings = Settings(initial: int, maximum: int, multiplier: real, jitter: real, jitterPercent: real, minimum: int)

  datatype Hint = Hint(retryAfter: int, rateLimitReset: int)

  const NO_HINT := Hint(0, UNSET)

  function Max(a: int, b: int): int {
    if a < b then b else a
  }

  function Normalize(s: Settings): Settings {
    var initial := if s.initial <= 0 then 15 * SECOND else s.initial;
    var maximum := if s.maximum <= 0 then 1800 * SECOND else s.maximum;
    var maximum := if maximum < initial then initial else maximum;
    var multiplier := if s.multiplier < 1.0 then 2.0 else s.multiplier;
    var jitter := if s.jitterPercent != 0.0 then s.jitterPercent / 100.0 else s.jitter;
    var jitter := if jitter > 1.0 then jitter / 100.0 else jitter;
    var jitter := if jitter < 0.0 then 0.0 else jitter;
    var minimum := if s.minimum <= 0 then SECOND else s.minimum;
    Settings(initial, maximum, multiplier, jitter, s.jitterPercent, minimum)
  }

  /** Settings that were normalized once already are normalized again before
      use. The second pass is harmless except for a jitter given as a fraction
      above 100, which it divides by 100 a second time. */
  lemma NormalizeIsStable(s: Settings)
    ensures Normalize(Normalize(s)) == Normalize(s) <==> s.jitterPercent != 0.0 || s.jitter <= 100.0
  {
  }

  function Pow(base: real, n: nat): real {
    if n == 0 then 1.0 else base * Pow(base, n - 1)
  }

  /** Conversion to whole nanoseconds drops the fraction toward zero. */
  function Truncate(x: real): int {
    if x >= 0.0 then x.Floor else -(-x).Floor
  }

  function Grown(s: Settings, attempt: nat): real {
    s.initial as real * Pow(s.multiplier, attempt)
  }

  function Nominal(s: Settings, attempt: int): real {
    var grown := Grown(s, if attempt < 0 then 0 else attempt);
    if grown > s.maximum as real then s.maximum as real else grown
  }

  /** A sample between zero and one, as a share from minus one to one. */
  function Spread(sample: real): real {
    (if sample < 0.0 then 0.0 else if sample > 1.0 then 1.0 else sample) * 2.0 - 1.0
  }

  function OnePlus(spread: real, jitter: real): real {
    1.0 + spread * jitter
  }

  function Factor(s: Settings, sample: real): real {
    if s.jitter > 0.0 then OnePlus(Spread(sample), s.jitter) else 1.0
  }

  function EffectiveMinimum(s: Settings): int {
    Max(s.minimum, SECOND)
  }

  function Jittered(nominal: real, factor: real): int {
    Truncate(nominal * factor)
  }

  function Clip(s: Settings, raw: int): int {
    var minimum := EffectiveMinimum(s);
    var delay := Max(raw, minimum);
    if delay > s.maximum && s.maximum >= minimum then s.maximum else delay
  }

  /** The delay before hints, for settings that are already normalized. */
  function LocalDelay(s: Settings, attempt: int, sample: real): int {
    Clip(s, Jittered(Nominal(s, attempt), Factor(s, sample)))
  }

  function CalculateDelay(settings: Settings, attempt: int, hint: Hint, now: int, sample: real): int {
    var local := LocalDelay(Normalize(settings), attempt, sample);
    var delay := if hint.retryAfter > local then hint.retryAfter else local;
    if hint.rateLimitReset != UNSET && hint.rateLimitReset > now && hint.rateLimitReset - now > delay
    then hint.rateLimitReset - now
    else delay
  }

  /** The delay until a retry, and whether it may begin before the deadline. */
  function ClampDelayToDeadline(delay: int, now: int, deadline: int): (r: (int, bool))
    ensures deadline != UNSET && now < deadline ==>
              && now + r.0 <= deadline
              && (r.1 <==> now + r.0 < deadline)
              && (r.1 ==> r.0 == delay)
  {
    if deadline == UNSET then (delay, true)
    else if deadline - now <= 0 then (0, false)
    else if delay >= deadline - now then (deadline - now, false)
    else (delay, true)
  }

  // --------------------------------------------------------------- ordering

  lemma {:induction false} PowGrows(base: real, m: nat, n: nat)
    requires base >= 1.0 && m <= n
    ensures 1.0 <= Pow(base, m) <= Pow(base, n)
  {
    if m < n {
      PowGrows(base, m, n - 1);
      ScaleUp(base, Pow(base, n - 1));
    } else if n > 0 {
      PowGrows(base, n - 1, n - 1);
      ScaleUp(base, Pow(base, n - 1));
    }
  }

  lemma ScaleUp(base: real, x: real)
    requires base >= 1.0 && x >= 1.0
    ensures base * x >= x
  {
    assert base * x - x == (base - 1.0) * x;
  }

  lemma ScaleKeepsOrder(x: real, y: real, factor: real)
    requires 0.0 <= x <= y
    ensures factor >= 0.0 ==> x * factor <= y * factor
    ensures factor < 0.0 ==> x * factor <= 0.0 && y * factor <= 0.0
  {
    assert y * factor - x * factor == (y - x) * factor;
  }

  lemma TruncateKeepsOrder(x: real, y: real)
    ensures x <= y ==> Truncate(x) <= Truncate(y)
    ensures x <= 0.0 ==> Truncate(x) <= 0
  {
  }

  lemma Scales(factor: real, x: real, y: real)
    requires 0.0 <= x <= y && factor >= 0.0
    ensures 0.0 <= factor * x <= factor * y
  {
    ScaleKeepsOrder(0.0, x, factor);
    ScaleKeepsOrder(x, y, factor);
    assert factor * x == x * factor && factor * y == y * factor;
  }

  lemma GrownGrows(s: Settings, m: nat, n: nat)
    requires s.initial > 0 && s.multiplier >= 1.0 && m <= n
    ensures 0.0 < s.initial as real <= Grown(s, m) <= Grown(s, n)
  {
    PowGrows(s.multiplier, m, n);
    Scales(s.initial as real, 1.0, Pow(s.multiplier, m));
    Scales(s.initial as real, Pow(s.multiplier, m), Pow(s.multiplier, n));
  }

  lemma NominalGrows(s: Settings, m: int, n: int)
    requires s.initial > 0 && s.maximum >= s.initial && s.multiplier >= 1.0 && m <= n
    ensures 0.0 < Nominal(s, m) <= Nominal(s, n) <= s.maximum as real
  {
    GrownGrows(s, Max(m, 0), Max(n, 0));
  }

  lemma JitterKeepsOrder(x: real, y: real, f: real)
    requires 0.0 <= x <= y
    ensures Jittered(x, f) <= Jittered(y, f) || (Jittered(x, f) <= 0 && Jittered(y, f) <= 0)
  {
    ScaleKeepsOrder(x, y, f);
    TruncateKeepsOrder(x * f, y * f);
    TruncateKeepsOrder(x * f, 0.0);
    TruncateKeepsOrder(y * f, 0.0);
  }

  lemma ClipGrows(s: Settings, x: int, y: int)
    requires x <= y || (x <= 0 && y <= 0)
    ensures Clip(s, x) <= Clip(s, y)
  {
  }

  lemma LocalDelayGrows(s: Settings, m: int, n: int, sample: real)
    requires s.initial > 0 && s.maximum >= s.initial && s.multiplier >= 1.0 && m <= n
    ensures LocalDelay(s, m, sample) <= LocalDelay(s, n, sample)
  {
    NominalGrows(s, m, n);
    var x, y, f := Nominal(s, m), Nominal(s, n), Factor(s, sample);
    JitterKeepsOrder(x, y, f);
    ClipGrows(s, Jittered(x, f), Jittered(y, f));
  }

  /** For one jitter sample and one hint, later attempts never wait less. */
  lemma DelayNeverDecreases(settings: Settings, m: int, n: int, hint: Hint, now: int, sample: real)
    requires m <= n
    ensures CalculateDelay(settings, m, hint, now, sample) <= CalculateDelay(settings, n, hint, now, sample)
  {
    LocalDelayGrows(Normalize(settings), m, n, sample);
  }

  /** Without hints the delay lies between the effective minimum and the cap
      whenever the cap leaves room; hints only ever lengthen it, up to the
      longest one. */
  lemma DelayIsBounded(settings: Settings, attempt: int, hint: Hint, now: int, sample: real)
    ensures var s := Normalize(settings);
            var local := CalculateDelay(settings, attempt, NO_HINT, now, sample);
            var reset := if hint.rateLimitReset == UNSET then 0 else hint.rateLimitReset - now;
            && SECOND <= EffectiveMinimum(s) <= local
            && (s.maximum >= EffectiveMinimum(s) ==> local <= s.maximum)
            && CalculateDelay(settings, attempt, hint, now, sample) == Max(local, Max(hint.retryAfter, reset))
  {
  }

  /** A cap below the floor does not cap: the floor wins. */
  lemma LowCapIsExceeded()
    ensures var s := Settings(2 * SECOND, 2 * SECOND, 1.0, 0.5, 0.0, 3 * SECOND);
            CalculateDelay(s, 0, NO_HINT, 1, 0.5) == 3 * SECOND > Normalize(s).maximum
  {
  }

  // ----------------------------------------------------------------- growth

  lemma GrownStep(s: Settings, n: nat)
    ensures Grown(s, 0) == s.initial as real && Grown(s, n + 1) == s.multiplier * Grown(s, n)
  {
    assert Pow(s.multiplier, n + 1) == s.multiplier * Pow(s.multiplier, n);
  }

  /** The nominal delay of the first attempt is the initial one, and that of each
      further attempt the multiplier times the one before, up to the cap. */
  lemma NominalIsGeometric(s: Settings, n: nat)
    requires s.initial > 0 && s.maximum >= s.initial && s.multiplier >= 1.0
    ensures Nominal(s, 0) == s.initial as real
    ensures var next := s.multiplier * Nominal(s, n);
            Nominal(s, n + 1) == if next > s.maximum as real then s.maximum as real else next
  {
    GrownStep(s, n);
    if Grown(s, n) > s.maximum as real {
      ScaleUp(s.multiplier, s.maximum as real);
      ScaleUp(s.multiplier, Grown(s, n));
    }
  }

  /** Jitter moves a delay by at most its share of the nominal one, down for the
      smallest sample and up for the largest, and not at all in the middle or
      without jitter; then the fraction of a nanosecond is dropped. */
  lemma JitterStaysNear(s: Settings, nominal: real, sample: real)
    requires 0.0 <= s.jitter <= 1.0 && nominal >= 0.0
    ensures var (raw, low, high) := (Jittered(nominal, Factor(s, sample)), 1.0 - s.jitter, 1.0 + s.jitter);
            && nominal * low - 1.0 < raw as real <= nominal * high
            && (sample <= 0.0 ==> raw == Jittered(nominal, low))
            && (sample >= 1.0 ==> raw == Jittered(nominal, high))
            && (s.jitter == 0.0 || sample == 0.5 ==> raw == Jittered(nominal, 1.0))
  {
    FactorStaysNear(s, sample);
    FactorMoves(nominal, 1.0 - s.jitter, Factor(s, sample), 1.0 + s.jitter);
  }

  lemma FactorMoves(nominal: real, low: real, f: real, high: real)
    requires 0.0 <= low <= f <= high && nominal >= 0.0
    ensures nominal * low - 1.0 < Jittered(nominal, f) as real <= nominal * high
  {
    Scales(nominal, low, f);
    Scales(nominal, f, high);
    DropsFraction(nominal * f);
  }

  lemma DropsFraction(x: real)
    requires x >= 0.0
    ensures x - 1.0 < Truncate(x) as real <= x
  {
  }

  lemma FactorStaysNear(s: Settings, sample: real)
    requires 0.0 <= s.jitter <= 1.0
    ensures 1.0 - s.jitter <= Factor(s, sample) <= 1.0 + s.jitter
    ensures sample <= 0.0 ==> Factor(s, sample) == 1.0 - s.jitter
    ensures sample >= 1.0 ==> Factor(s, sample) == 1.0 + s.jitter
    ensures s.jitter == 0.0 || sample == 0.5 ==> Factor(s, sample) == 1.0
  {
    ShareStays(Spread(sample), s.jitter);
  }

  lemma ShareStays(y: real, share: real)
    requires -1.0 <= y <= 1.0 && share >= 0.0
    ensures 1.0 - share <= OnePlus(y, share) <= 1.0 + share
    ensures y == -1.0 ==> OnePlus(y, share) == 1.0 - share
    ensures y == 0.0 ==> OnePlus(y, share) == 1.0
    ensures y == 1.0 ==> OnePlus(y, share) == 1.0 + share
  {
    Scales(share, 0.0, y + 1.0);
    Scales(share, 0.0, 1.0 - y);
    SharesAdd(y, share);
  }

  lemma SharesAdd(y: real, share: real)
    ensures share * (y + 1.0) == y * share + share && share * (1.0 - y) == share - y * share
    ensures y == -1.0 ==> y * share == -share
  {
  }

  /** A delay without hints is the jittered nominal one where floor and cap leave
      it alone; below the floor it is the floor, and above the cap the cap if
      that is no lower than the floor. */
  lemma DelayFollowsNominal(settings: Settings, attempt: nat, now: int, sample: real)
    ensures var s := Normalize(settings);
            var raw := Jittered(Nominal(s, attempt), Factor(s, sample));
            var delay := CalculateDelay(settings, attempt, NO_HINT, now, sample);
            delay == if raw <= EffectiveMinimum(s) then EffectiveMinimum(s)
                     else if raw > s.maximum >= EffectiveMinimum(s) then s.maximum
                     else raw
  {
  }

  /** The settings used when nothing is configured, without jitter. */
  const PLAIN := Settings(0, 0, 0.0, 0.0, 0.0, 0)

  /** Unconfigured delays double from fifteen seconds up to half an hour. */
  lemma PlainDelaysDouble(attempt: nat, now: int, sample: real)
    ensures var delay := CalculateDelay(PLAIN, attempt, NO_HINT, now, sample);
            delay == if attempt >= 7 then 1800 * SECOND else 15 * SECOND * [1, 2, 4, 8, 16, 32, 64][attempt]
  {
    DelayFollowsNominal(PLAIN, attempt, now, sample);
    PlainNominal(attempt);
    assert Factor(Normalize(PLAIN), sample) == 1.0;
  }

  lemma {:induction false} PlainNominal(attempt: nat)
    ensures Nominal(Normalize(PLAIN), attempt)
            == if attempt >= 7 then (1800 * SECOND) as real else (15 * SECOND * [1, 2, 4, 8, 16, 32, 64][attempt]) as real
  {
    var s := Normalize(PLAIN);
    if attempt == 0 {
      NominalIsGeometric(s, 0);
    } else {
      PlainNominal(attempt - 1);
      NominalIsGeometric(s, attempt - 1);
    }
  }

  // ------------------------------------------------------------------ incident

  /** The attempts of one incident. */
  class BackoffState {
    var attempt: nat
    var incidentStartedAt: int
    var lastFailureAt: int
    var nextRetryAt: int

    constructor ()
      ensures Idle()
    {
      attempt, incidentStartedAt, lastFailureAt, nextRetryAt := 0, UNSET, UNSET, UNSET;
    }

    predicate Idle()
      reads this
    {
      attempt == 0 && incidentStartedAt == UNSET && lastFailureAt == UNSET && nextRetryAt == UNSET
    }

    /** Whether another attempt is still deferred. */
    predicate Active(now: int)
      reads this
    {
      nextRetryAt != UNSET && now < nextRetryAt
    }

    /** Records a failure: the incident keeps its start, and the next attempt is
        deferred for at least the effective minimum, at least the server's
        hints, and no less than the same failure one attempt earlier. */
    method Schedule(now: int, settings: Settings, hint: Hint, sample: real) returns (delay: int)
      requires now > 0
      modifies this
      ensures delay == CalculateDelay(settings, old(attempt), hint, now, sample)
      ensures attempt == old(attempt) + 1 && lastFailureAt == now && nextRetryAt == now + delay
      ensures incidentStartedAt == if old(incidentStartedAt) == UNSET then now else old(incidentStartedAt)
      ensures Active(now) && !Active(now + delay)
      ensures delay >= EffectiveMinimum(Normalize(settings)) && delay >= hint.retryAfter
      ensures old(attempt) > 0 ==> delay >= CalculateDelay(settings, old(attempt) - 1, hint, now, sample)
    {
      if incidentStartedAt == UNSET { incidentStartedAt := now; }
      lastFailureAt := now;
      delay := CalculateDelay(settings, attempt, hint, now, sample);
      DelayIsBounded(settings, attempt, hint, now, sample);
      if attempt > 0 { DelayNeverDecreases(settings, attempt - 1, attempt, hint, now, sample); }
      attempt := attempt + 1;
      nextRetryAt := now + delay;
    }

    method Reset()
      modifies this
      ensures Idle()
    {
      attempt, incidentStartedAt, lastFailureAt, nextRetryAt := 0, UNSET, UNSET, UNSET;
    }
  }
}
