/** What a start, a check and a pending update come to, told from what they find:
    the receipt, the status of the active package, the catalog's answer. */
module PrebuiltOutcomes {
  import opened PrebuiltAdmission
  import opened Wrappers

  // ------------------------------------------------------------------- a start

  function ReadAt(w: World, s: EnsureScript): Policy {
    if s.readable then Known(w) else FRESH
  }

  /** A start takes the receipt over into a state that knows no configuration. */
  predicate TakesReceipt(w: World, s: EnsureScript) {
    s.receipt.Some? && ReadAt(w, s).localHash == ""
  }

  /** The start gets past the update state and its schedule. */
  predicate Enters(w: World, s: EnsureScript) {
    && s.entered
    && (TakesReceipt(w, s) ==> s.parses && s.adopt.Works?)
    && (s.shift.Some? ==> s.shifted.Works?)
  }

  /** The state it goes on with. */
  function Entry(w: World, s: EnsureScript): Policy {
    var p := ReadAt(w, s);
    var schedule := if s.shift.Some? then s.shift.value else if TakesReceipt(w, s) then s.next else p.schedule;
    if TakesReceipt(w, s) then Policy(s.localHash, s.receipt, p.pending, p.blocked, schedule) else p.(schedule := schedule)
  }

  /** It looks whether the last resolved package is still in place. */
  predicate Looks(p: Policy, s: EnsureScript) {
    p.last.Some? && p.localHash in {"", s.localHash}
  }

  /** It found the package in place. */
  predicate Keeps(p: Policy, s: EnsureScript) {
    Looks(p, s) && s.current == Some(true)
  }

  /** It asks for the signed status of the package in place. */
  predicate Inspects(p: Policy, s: EnsureScript) {
    Keeps(p, s) && (s.force || s.due) && s.receipt.Some?
  }

  /** It asks the catalog for a package. */
  predicate Resolves(p: Policy, s: EnsureScript) {
    && (Looks(p, s) ==> s.current.Some?)
    && (Keeps(p, s) ==> s.force || s.due)
    && (Inspects(p, s) ==> s.status in {Active, Superseded, Revoked, CriticallyRevoked})
  }

  /** It learns of a critical revocation, from the status or from the catalog. */
  predicate Finds(p: Policy, s: EnsureScript) {
    (Inspects(p, s) && s.status.CriticallyRevoked?) || (Resolves(p, s) && s.answer.Critical?)
  }

  /** The catalog's package was announced and activated. */
  predicate Activates(p: Policy, s: EnsureScript) {
    Resolves(p, s) && s.answer.Found? && s.announced.Works? && s.activated
  }

  /** It succeeds if it activates and can note that down, or if it is not forced,
      the package is in place, and the check is not due or fails: for want of a
      status, or of a package to activate. */
  predicate Succeeds(p: Policy, s: EnsureScript) {
    || (Activates(p, s) && s.parses && s.finish.Works?)
    || (Keeps(p, s) && !s.force
        && (|| !s.due
            || (Inspects(p, s) && s.status in {NoResolver, Unknown})
            || (Resolves(p, s) && !Activates(p, s) && (s.answer.Found? ==> s.announced.Works?))))
  }

  predicate StartFinds(w: World, s: EnsureScript) {
    Enters(w, s) && Finds(Entry(w, s), s)
  }

  predicate StartActivates(w: World, s: EnsureScript) {
    Enters(w, s) && Activates(Entry(w, s), s)
  }

  predicate StartWrites(s: EnsureScript) {
    s.adopt.Works? && s.shifted.Works? && s.noted.Works? && s.announced.Works? && s.failed.Works? && s.finish.Works?
  }

  /** What is on disk after the start when all writes work. */
  function Remembered(p: Policy, s: EnsureScript): Policy {
    var blocked := p.blocked || Finds(p, s);
    if Activates(p, s) && s.parses then Policy(s.localHash, Some(s.answer.package), None, false, s.next)
    else if Resolves(p, s) && s.answer.Found? then
      Policy(s.localHash, p.last, Some(s.answer.package), blocked, if s.activated then p.schedule else s.retry)
    else if Resolves(p, s) || (Inspects(p, s) && s.status in {NoResolver, Unknown}) then p.(blocked := blocked, schedule := s.retry)
    else p
  }

  lemma BootstrapEnters(w: World, s: EnsureScript)
    requires s.entered
    ensures var (w', next, ok) := BootstrappedBy(Restored(w, ReadAt(w, s)), ReadAt(w, s), s);
            && (ok <==> Enters(w, s)) && (ok ==> next == Entry(w, s)) && w'.block == ReadAt(w, s).blocked
            && (ok && s.readable ==> Known(w') == next)
  {
  }

  /** What asking the catalog comes to. */
  lemma ResolutionReports(w: World, p: Policy, revoked: bool, tolerated: bool, s: EnsureScript)
    ensures var (w', r) := ResolvedBy(w, p, revoked, tolerated, s);
            var activates := s.answer.Found? && s.announced.Works? && s.activated;
            && (r.revoked <==> revoked || s.answer.Critical?) && !r.confirmed
            && r.adopted == (if activates then Some(s.answer.package) else None)
            && (r.ok <==> if activates then s.parses && s.finish.Works? else tolerated && (s.answer.Found? ==> s.announced.Works?))
            && w'.block == (!activates && (w.block || s.answer.Critical?))
    ensures s.announced.Works? && s.failed.Works? && s.finish.Works? ==>
              Known(ResolvedBy(w, p, revoked, tolerated, s).0)
              == if !s.answer.Found? then p.(blocked := p.blocked || s.answer.Critical?, schedule := s.retry)
                 else if s.activated && s.parses then Policy(s.localHash, Some(s.answer.package), None, false, s.next)
                 else Policy(s.localHash, p.last, Some(s.answer.package), p.blocked, if s.activated then p.schedule else s.retry)
  {
  }

  lemma CurrentReports(w: World, p: Policy, s: EnsureScript)
    ensures var (w', r) := CurrentBy(w, p, s);
            && (r.revoked <==> Finds(p, s)) && !r.confirmed
            && r.adopted == (if Activates(p, s) then Some(s.answer.package) else None)
            && (r.ok <==> Succeeds(p, s))
  {
    var tolerated, blocked := !s.force && Keeps(p, s), p.(blocked := true);
    ResolutionReports(w, p, false, tolerated, s);
    ResolutionReports(Written(Restored(w, blocked), blocked, s.noted), blocked, true, tolerated, s);
  }

  lemma CurrentRemembers(w: World, p: Policy, s: EnsureScript)
    requires Known(w) == p && w.block == p.blocked && StartWrites(s)
    ensures var w' := CurrentBy(w, p, s).0;
            Known(w') == Remembered(p, s) && w'.block == (!Activates(p, s) && (p.blocked || Finds(p, s)))
  {
    var tolerated, blocked := !s.force && Keeps(p, s), p.(blocked := true);
    ResolutionReports(w, p, false, tolerated, s);
    ResolutionReports(Written(Restored(w, blocked), blocked, s.noted), blocked, true, tolerated, s);
  }

  /** A start reports a revocation exactly if it finds one, an activation exactly
      if it activates, and success exactly if it succeeds. */
  lemma StartReports(w: World, s: EnsureScript)
    ensures var r := EnsuredBy(w, s).1;
            && (r.revoked <==> StartFinds(w, s)) && !r.confirmed
            && r.adopted == (if StartActivates(w, s) then Some(s.answer.package) else None)
            && (r.ok <==> Enters(w, s) && Succeeds(Entry(w, s), s))
  {
    if s.entered {
      BootstrapEnters(w, s);
      var (w1, next, ok) := BootstrappedBy(Restored(w, ReadAt(w, s)), ReadAt(w, s), s);
      if ok { CurrentReports(w1, next, s); }
    }
  }

  /** An activated package is the last resolved one and lifts the block; a found
      one that is not activated is pending; without one the last resolved package
      and the pending one stay, and a revocation is noted. */
  lemma StartRemembers(w: World, s: EnsureScript)
    requires Enters(w, s) && s.readable && StartWrites(s)
    ensures var (w', p) := (EnsuredBy(w, s).0, Entry(w, s));
            Known(w') == Remembered(p, s) && w'.block == (!StartActivates(w, s) && (p.blocked || StartFinds(w, s)))
  {
    BootstrapEnters(w, s);
    var (w1, next, ok) := BootstrappedBy(Restored(w, ReadAt(w, s)), ReadAt(w, s), s);
    CurrentRemembers(w1, next, s);
  }

  // ------------------------------------------------------------------- a check

  /** The check is due and gets to the active package. */
  predicate Due(s: CheckScript) {
    s.readable && (s.shift.Some? ==> s.shifted.Works?) && s.due
  }

  /** It asks the catalog for a package, after the status of a resolved one. */
  predicate Compares(w: World, s: CheckScript) {
    Due(s) && (Known(w).last.Some? ==> s.status !in {NoResolver, Unknown})
  }

  predicate CheckFinds(w: World, s: CheckScript) {
    || (Due(s) && Known(w).last.Some? && s.status.CriticallyRevoked?)
    || (Compares(w, s) && s.answer.Critical?)
  }

  /** The catalog answers for the configuration that the pool runs with. */
  predicate Comparable(w: World, s: CheckScript) {
    Compares(w, s) && s.answer.Found? && Known(w).localHash == s.localHash
  }

  predicate SamePackage(w: World, package: Resolved) {
    Known(w).last.Some? && Known(w).last.value.manifest == package.manifest
  }

  /** The package in use is confirmed. */
  predicate CheckConfirms(w: World, s: CheckScript) {
    Comparable(w, s) && SamePackage(w, s.answer.package) && s.parses
  }

  /** Another package is offered. */
  predicate CheckOffers(w: World, s: CheckScript) {
    Comparable(w, s) && !SamePackage(w, s.answer.package)
  }

  /** A check reports a revocation exactly if it finds one, and a confirmation
      exactly if it confirms; it activates nothing, and succeeds exactly if it is
      not due, or its confirmation or offer is written. */
  lemma CheckReports(w: World, s: CheckScript)
    ensures var r := CheckedBy(w, s).1;
            && (r.revoked <==> CheckFinds(w, s)) && (r.confirmed <==> CheckConfirms(w, s)) && r.adopted.None?
            && (r.ok <==> || (s.readable && (s.shift.Some? ==> s.shifted.Works?) && !s.due)
                          || ((CheckConfirms(w, s) || CheckOffers(w, s)) && s.finish.Works?))
  {
  }

  lemma ComparisonRemembers(w: World, p: Policy, revoked: bool, s: CheckScript)
    requires Known(w) == p && s.failed.Works? && s.finish.Works? && (revoked ==> p.blocked && w.block)
    ensures var comparable := s.answer.Found? && p.localHash == s.localHash;
            var confirms := comparable && p.last.Some? && p.last.value.manifest == s.answer.package.manifest;
            var w' := ComparedBy(w, p, revoked, s).0;
            && Known(w') == (if confirms && s.parses then p.(pending := None, blocked := false, schedule := s.next)
                             else if comparable && !confirms then p.(pending := Some(s.answer.package))
                             else if s.answer.Found? then p
                             else p.(blocked := p.blocked || s.answer.Critical?, schedule := s.retry))
            && w'.block == (!(confirms && s.parses) && (w.block || s.answer.Critical?))
  {
  }

  /** What is on disk after a check when all writes work: a new manifest becomes
      pending; a confirmed one clears what was pending and the block; a failed
      answer notes when to ask again. The last resolved package never changes. */
  function CheckRemembered(w: World, s: CheckScript): Policy {
    var p := Known(w);
    var shifted := p.(blocked := p.blocked || CheckFinds(w, s), schedule := if s.shift.Some? then s.shift.value else p.schedule);
    if CheckConfirms(w, s) then p.(pending := None, blocked := false, schedule := s.next)
    else if CheckOffers(w, s) then shifted.(pending := Some(s.answer.package))
    else if (if Compares(w, s) then !s.answer.Found? else s.status.Unknown?) then shifted.(schedule := s.retry)
    else shifted
  }

  lemma CheckRemembers(w: World, s: CheckScript)
    requires Due(s) && s.shifted.Works? && s.noted.Works? && s.failed.Works? && s.finish.Works?
    ensures var w' := CheckedBy(w, s).0;
            && Known(w') == CheckRemembered(w, s)
            && w'.block == (!CheckConfirms(w, s) && (w.block || CheckFinds(w, s)))
  {
    var (w1, p, ok) := ShiftedBy(w, Known(w), s.shift, s.shifted);
    var blocked := p.(blocked := true);
    ComparisonRemembers(w1, p, false, s);
    ComparisonRemembers(Written(Restored(w1, blocked), blocked, s.noted), blocked, true, s);
  }

  // --------------------------------------------------------- a pending update

  /** The catalog still resolves to the pending package. */
  predicate StillOffered(w: World, s: ApplyScript) {
    s.readable && Known(w).pending.Some? && s.answer == Found(Known(w).pending.value)
  }

  predicate ApplyFinds(w: World, s: ApplyScript) {
    || (s.readable && Known(w).pending.Some? && s.answer.Critical?)
    || (StillOffered(w, s) && !s.activated && s.critical)
  }

  /** Applying activates exactly a pending package that is still offered, reports
      a revocation exactly if it finds one, and succeeds exactly if nothing is
      pending or the activation is noted down and cleaned up after. */
  lemma ApplyReports(w: World, s: ApplyScript)
    ensures var (w', r) := AppliedBy(w, s);
            && (r.revoked <==> ApplyFinds(w, s)) && !r.confirmed
            && r.adopted == (if StillOffered(w, s) && s.activated then Known(w).pending else None)
            && (r.ok <==> s.readable && (Known(w).pending.None?
                                         || (StillOffered(w, s) && s.activated && s.parses && s.finish.Works? && s.cleaned)))
  {
  }

  /** The activated package is the last resolved one and nothing is pending or
      blocked; otherwise only a revocation and the next attempt are noted. */
  lemma ApplyRemembers(w: World, s: ApplyScript)
    requires s.readable && Known(w).pending.Some? && s.parses && s.failed.Works? && s.finish.Works?
    ensures var (p, w') := (Known(w), AppliedBy(w, s).0);
            if StillOffered(w, s) && s.activated then
              w' == World(Some(Policy(p.localHash, p.pending, None, false, s.next)), false)
            else
              && Known(w') == p.(blocked := p.blocked || ApplyFinds(w, s), schedule := s.retry)
              && w'.block == (if ApplyFinds(w, s) then true else w.block)
  {
  }
}
