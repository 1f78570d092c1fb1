/** The admission block of a prebuilt package: set when the signed catalog says
    the package is critically revoked, kept on disk, and restored by every start.
    A script says what each call finds and how its writes go. */
module PrebuiltAdmission {
  import opened Wrappers

  /** A resolved package: the manifest and where it came from. */
  datatype Resolved = Resolved(manifest: int, source: int)

  /** The update state on disk. `schedule` stands for all times and counters. */
  datatype Policy = Policy(localHash: string, last: Option<Resolved>, pending: Option<Resolved>,
                           blocked: bool, schedule: int)

  const FRESH := Policy("", None, None, false, 0)

  /** The update state and the block that admissions look at. */
  datatype World = World(disk: Option<Policy>, block: bool)

  /** What the resolver says about the active package; `NoResolver` if it cannot
      be asked, `Unknown` if it fails. */
  datatype Status = Active | Superseded | Revoked | CriticallyRevoked | Unsupported | Unknown | NoResolver

  datatype Answer = Found(package: Resolved) | Critical | NotFound

  /** What a call did: whether it succeeded, recorded a critical revocation,
      activated a package, or found the current one confirmed. */
  datatype Report = Report(ok: bool, revoked: bool, adopted: Option<Resolved>, confirmed: bool)

  const FAILURE := Report(false, false, None, false)
  const SUCCESS := Report(true, false, None, false)

  // ------------------------------------------------------------------- scripts

  /** A start. `entered` says that it got as far as the update state, `current`
      what the look at the active package says (none if it fails), `parses` that
      the update time can be scheduled; the faults are the writes in order. */
  datatype EnsureScript = EnsureScript(force: bool, entered: bool, localHash: string, receipt: Option<Resolved>, readable: bool,
                                       parses: bool, adopt: Fault, shift: Option<int>, shifted: Fault, current: Option<bool>,
                                       due: bool, status: Status, noted: Fault, answer: Answer, announced: Fault,
                                       activated: bool, retry: int, failed: Fault, next: int, finish: Fault)

  datatype CheckScript = CheckScript(localHash: string, readable: bool, shift: Option<int>, shifted: Fault, due: bool,
                                     status: Status, noted: Fault, answer: Answer, retry: int, failed: Fault,
                                     parses: bool, next: int, finish: Fault)

  /** `critical` says that a failed activation was due to a critical revocation. */
  datatype ApplyScript = ApplyScript(readable: bool, answer: Answer, activated: bool, critical: bool, retry: int, failed: Fault,
                                     parses: bool, next: int, finish: Fault, cleaned: bool)

  // --------------------------------------------------------- state and writes

  function Known(w: World): Policy {
    if w.disk.Some? then w.disk.value else FRESH
  }

  /** Replaces the file as a whole, or not at all. */
  function Written(w: World, state: Policy, f: Fault): World {
    if Lands(f) then w.(disk := Some(state)) else w
  }

  function Restored(w: World, state: Policy): World {
    w.(block := state.blocked)
  }

  /** Records a failed attempt; how the write goes is ignored. */
  function NotedBy(w: World, state: Policy, critical: bool, retry: int, f: Fault): World {
    var next := if critical then state.(blocked := true) else state;
    Written(if critical then Restored(w, next) else w, next.(schedule := retry), f)
  }

  /** Moves the schedule to the current time zone and policy, if they changed. */
  function ShiftedBy(w: World, state: Policy, shift: Option<int>, f: Fault): (World, Policy, bool) {
    if shift.None? then (w, state, true)
    else (Written(w, state.(schedule := shift.value), f), state.(schedule := shift.value), f.Works?)
  }

  // ------------------------------------------------------------------- a start

  /** Adopts the receipt into a fresh state. */
  function BootstrappedBy(w: World, state: Policy, s: EnsureScript): (World, Policy, bool) {
    if s.receipt.None? || state.localHash != "" then ShiftedBy(w, state, s.shift, s.shifted)
    else if !s.parses then (w, state, false)
    else
      var next := state.(localHash := s.localHash, last := s.receipt, schedule := s.next);
      var w1 := Written(w, next, s.adopt);
      if s.adopt.Works? then ShiftedBy(w1, next, s.shift, s.shifted) else (w1, next, false)
  }

  function ResolvedBy(w: World, state: Policy, revoked: bool, tolerated: bool, s: EnsureScript): (World, Report) {
    match s.answer
    case NotFound => (NotedBy(w, state, false, s.retry, s.failed), Report(tolerated, revoked, None, false))
    case Critical => (NotedBy(w, state, true, s.retry, s.failed), Report(tolerated, true, None, false))
    case Found(package) =>
      var announced := state.(localHash := s.localHash, pending := Some(package));
      var w1 := Written(w, announced, s.announced);
      if !s.announced.Works? then (w1, Report(false, revoked, None, false))
      else if !s.activated then (NotedBy(w1, announced, false, s.retry, s.failed), Report(tolerated, revoked, None, false))
      else
        var (w2, ok) := AdoptedBy(w1, announced, package, s.parses, s.next, s.finish);
        (w2, Report(ok, revoked, Some(package), false))
  }

  /** An activated package becomes the last resolved one and lifts the block. */
  function AdoptedBy(w: World, state: Policy, package: Resolved, parses: bool, next: int, f: Fault): (World, bool) {
    var adopted := state.(last := Some(package), pending := None, blocked := false);
    var w1 := Restored(w, adopted);
    if parses then (Written(w1, adopted.(schedule := next), f), f.Works?) else (w1, false)
  }

  function CurrentBy(w: World, state: Policy, s: EnsureScript): (World, Report) {
    var localChanged := state.localHash != "" && state.localHash != s.localHash;
    var looked := !localChanged && state.last.Some?;
    var current := looked && s.current == Some(true);
    var tolerated := !s.force && current;
    if looked && s.current.None? then (w, FAILURE)
    else if tolerated && !s.due then (w, SUCCESS)
    else if !current || s.receipt.None? then ResolvedBy(w, state, false, tolerated, s)
    else
      match s.status
      case NoResolver => (NotedBy(w, state, false, s.retry, s.noted), FAILURE.(ok := !s.force))
      case Unknown => (NotedBy(w, state, false, s.retry, s.noted), FAILURE.(ok := !s.force))
      case Unsupported => (w, FAILURE)
      case CriticallyRevoked =>
        var blocked := state.(blocked := true);
        ResolvedBy(Written(Restored(w, blocked), blocked, s.noted), blocked, true, tolerated, s)
      case _ => ResolvedBy(w, state, false, tolerated, s)
  }

  /** Every start: restores the block, checks the active package if that is due,
      and activates what the catalog resolves to. */
  function EnsuredBy(w: World, s: EnsureScript): (World, Report) {
    if !s.entered then (w, FAILURE)
    else
      var state := if s.readable then Known(w) else FRESH;
      var (w1, next, ok) := BootstrappedBy(Restored(w, state), state, s);
      if ok then CurrentBy(w1, next, s) else (w1, FAILURE)
  }

  // ------------------------------------------------------------------- a check

  function ComparedBy(w: World, state: Policy, revoked: bool, s: CheckScript): (World, Report) {
    match s.answer
    case NotFound => (NotedBy(w, state, false, s.retry, s.failed), Report(false, revoked, None, false))
    case Critical => (NotedBy(w, state, true, s.retry, s.failed), Report(false, true, None, false))
    case Found(package) =>
      if state.localHash != s.localHash then (w, Report(false, revoked, None, false))
      else if state.last.None? || state.last.value.manifest != package.manifest then
        (Written(w, state.(pending := Some(package)), s.finish), Report(s.finish.Works?, revoked, None, false))
      else if !s.parses then (w, Report(false, revoked, None, false))
      else
        var confirmed := state.(pending := None, blocked := false, schedule := s.next);
        (Written(Restored(w, confirmed), confirmed, s.finish), Report(s.finish.Works?, revoked, None, true))
  }

  /** The remote observation of a running pool; it activates nothing. */
  function CheckedBy(w: World, s: CheckScript): (World, Report) {
    if !s.readable then (w, FAILURE)
    else
      var (w1, state, ok) := ShiftedBy(w, Known(w), s.shift, s.shifted);
      if !ok then (w1, FAILURE)
      else if !s.due then (w1, SUCCESS)
      else if state.last.None? then ComparedBy(w1, state, false, s)
      else
        match s.status
        case NoResolver => (w1, FAILURE)
        case Unknown => (NotedBy(w1, state, false, s.retry, s.noted), FAILURE)
        case CriticallyRevoked =>
          var blocked := state.(blocked := true);
          ComparedBy(Written(Restored(w1, blocked), blocked, s.noted), blocked, true, s)
        case _ => ComparedBy(w1, state, false, s)
  }

  // ------------------------------------------------------- a pending update

  /** Activates the pending package once the pool has drained. */
  function AppliedBy(w: World, s: ApplyScript): (World, Report) {
    var state := Known(w);
    if !s.readable then (w, FAILURE)
    else if state.pending.None? then (w, SUCCESS)
    else if s.answer == Found(state.pending.value) && s.activated then
      var (w1, ok) := AdoptedBy(w, state, state.pending.value, s.parses, s.next, s.finish);
      (w1, Report(ok && s.cleaned, false, state.pending, false))
    else
      var critical := s.answer.Critical? || (s.answer == Found(state.pending.value) && s.critical);
      (NotedBy(w, state, critical, s.retry, s.failed), Report(false, critical, None, false))
  }

  // --------------------------------------------------------------- controller

  class Coordinator {
    var disk: Option<Policy>
    var block: bool

    ghost function View(): World
      reads this
    {
      World(disk, block)
    }

    method Write(state: Policy, f: Fault) returns (ok: bool)
      modifies `disk
      ensures View() == Written(old(View()), state, f) && ok == f.Works?
    {
      if Lands(f) { disk := Some(state); }
      ok := f.Works?;
    }

    method Restore(state: Policy)
      modifies `block
      ensures View() == Restored(old(View()), state)
    {
      block := state.blocked;
    }

    method NoteFailure(state: Policy, critical: bool, retry: int, f: Fault)
      modifies this
      ensures View() == NotedBy(old(View()), state, critical, retry, f)
    {
      var next := state;
      if critical {
        next := next.(blocked := true);
        Restore(next);
      }
      next := next.(schedule := retry);
      var ignored := Write(next, f);
    }

    method Shift(state: Policy, shift: Option<int>, f: Fault) returns (next: Policy, ok: bool)
      modifies `disk
      ensures (View(), next, ok) == ShiftedBy(old(View()), state, shift, f)
    {
      next, ok := state, true;
      if shift.Some? {
        next := next.(schedule := shift.value);
        ok := Write(next, f);
      }
    }

    method Bootstrap(state: Policy, s: EnsureScript) returns (next: Policy, ok: bool)
      modifies `disk
      ensures (View(), next, ok) == BootstrappedBy(old(View()), state, s)
    {
      next := state;
      if s.receipt.Some? && state.localHash == "" {
        if !s.parses { return state, false; }
        next := next.(localHash := s.localHash, last := s.receipt, schedule := s.next);
        ok := Write(next, s.adopt);
        if !ok { return; }
      }
      next, ok := Shift(next, s.shift, s.shifted);
    }

    method Adopt(before: Policy, package: Resolved, parses: bool, next: int, f: Fault) returns (ok: bool)
      modifies this
      ensures (View(), ok) == AdoptedBy(old(View()), before, package, parses, next, f)
    {
      var state := before.(last := Some(package), pending := None, blocked := false);
      Restore(state);
      if !parses { return false; }
      state := state.(schedule := next);
      ok := Write(state, f);
    }

    method EnsurePrebuilt(s: EnsureScript) returns (r: Report)
      modifies this
      ensures (View(), r) == EnsuredBy(old(View()), s)
    {
      if !s.entered { return FAILURE; }
      var state := if s.readable && disk.Some? then disk.value else FRESH;
      Restore(state);
      var ok;
      state, ok := Bootstrap(state, s);
      if !ok { return FAILURE; }
      var localChanged := state.localHash != "" && state.localHash != s.localHash;
      var current := false;
      if !localChanged && state.last.Some? {
        if s.current.None? { return FAILURE; }
        current := s.current.value;
      }
      if !s.force && current && !s.due { return SUCCESS; }
      var revoked := false;
      if current && s.receipt.Some? {
        if s.status.NoResolver? || s.status.Unknown? {
          NoteFailure(state, false, s.retry, s.noted);
          return FAILURE.(ok := !s.force);
        }
        if s.status.Unsupported? { return FAILURE; }
        if s.status.CriticallyRevoked? {
          revoked, state := true, state.(blocked := true);
          Restore(state);
          var ignored := Write(state, s.noted);
        }
      }
      r := ResolveAndAdopt(state, revoked, !s.force && !localChanged && current, s);
    }

    method ResolveAndAdopt(before: Policy, revoked: bool, tolerated: bool, s: EnsureScript) returns (r: Report)
      modifies this
      ensures (View(), r) == ResolvedBy(old(View()), before, revoked, tolerated, s)
    {
      if !s.answer.Found? {
        NoteFailure(before, s.answer.Critical?, s.retry, s.failed);
        return Report(tolerated, revoked || s.answer.Critical?, None, false);
      }
      var state := before.(localHash := s.localHash, pending := Some(s.answer.package));
      var ok := Write(state, s.announced);
      if !ok { return Report(false, revoked, None, false); }
      if !s.activated {
        NoteFailure(state, false, s.retry, s.failed);
        return Report(tolerated, revoked, None, false);
      }
      ok := Adopt(state, s.answer.package, s.parses, s.next, s.finish);
      r := Report(ok, revoked, Some(s.answer.package), false);
    }

    method CheckRemoteUpdate(s: CheckScript) returns (r: Report)
      modifies this
      ensures (View(), r) == CheckedBy(old(View()), s)
    {
      if !s.readable { return FAILURE; }
      var state := if disk.Some? then disk.value else FRESH;
      var ok;
      state, ok := Shift(state, s.shift, s.shifted);
      if !ok { return FAILURE; }
      if !s.due { return SUCCESS; }
      var revoked := false;
      if state.last.Some? {
        if s.status.NoResolver? { return FAILURE; }
        if s.status.Unknown? {
          NoteFailure(state, false, s.retry, s.noted);
          return FAILURE;
        }
        if s.status.CriticallyRevoked? {
          revoked, state := true, state.(blocked := true);
          Restore(state);
          var ignored := Write(state, s.noted);
        }
      }
      r := CompareWithCurrent(state, revoked, s);
    }

    method CompareWithCurrent(before: Policy, revoked: bool, s: CheckScript) returns (r: Report)
      modifies this
      ensures (View(), r) == ComparedBy(old(View()), before, revoked, s)
    {
      if !s.answer.Found? {
        NoteFailure(before, s.answer.Critical?, s.retry, s.failed);
        return Report(false, revoked || s.answer.Critical?, None, false);
      }
      if before.localHash != s.localHash { return Report(false, revoked, None, false); }
      var state := before;
      if before.last.Some? && before.last.value.manifest == s.answer.package.manifest {
        if !s.parses { return Report(false, revoked, None, false); }
        state := state.(pending := None, blocked := false, schedule := s.next);
        Restore(state);
        var ok := Write(state, s.finish);
        return Report(ok, revoked, None, true);
      }
      state := state.(pending := Some(s.answer.package));
      var ok := Write(state, s.finish);
      r := Report(ok, revoked, None, false);
    }

    method ApplyPendingUpdate(s: ApplyScript) returns (r: Report)
      modifies this
      ensures (View(), r) == AppliedBy(old(View()), s)
    {
      if !s.readable { return FAILURE; }
      var state := if disk.Some? then disk.value else FRESH;
      if state.pending.None? { return SUCCESS; }
      if s.answer != Found(state.pending.value) || !s.activated {
        var critical := s.answer.Critical? || (s.answer == Found(state.pending.value) && s.critical);
        NoteFailure(state, critical, s.retry, s.failed);
        return Report(false, critical, None, false);
      }
      var ok := Adopt(state, state.pending.value, s.parses, s.next, s.finish);
      r := Report(ok && s.cleaned, false, state.pending, false);
    }
  }
}
