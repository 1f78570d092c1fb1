/** The lock on one configuration path: an entry in the process, a shared
    directory with a pid file, and an exclusive file lock. */
module HostTrustLock {
  import opened Wrappers

  // ------------------------------------------------------------------- state

  datatype PidFile = Absent | Junk | Owner(pid: nat)
  datatype Directory = NoDirectory | Directory(pidFile: PidFile)

  /** Where one acquisition stands, named after its next call. `closing` tells
      the release of a held lock from the unwinding of a failed acquisition. */
  datatype Phase =
    | Storing
    | Making(attempt: nat)
    | Writing
    | Reading(attempt: nat)
    | ClearingPid(attempt: nat)
    | ClearingDirectory(attempt: nat)
    | Locking
    | Noting
    | Held
    | Unlocking(closing: bool)
    | ClosingFile(closing: bool)
    | LeavingPid(closing: bool)
    | LeavingDirectory(closing: bool)
    | Dropping(closing: bool)
    | Refused
    | Closed
    | Gone              // its process is dead

  datatype Thread = Thread(pid: nat, phase: Phase)

  /** `entries` is the map inside each live process, from the process to the
      acquisition that stored it. `leftover` is set once a crash or a failed
      removal may have left a pid file behind. */
  datatype Shared = Shared(entries: map<nat, nat>, directory: Directory, fileLock: Option<nat>, leftover: bool)

  datatype State = State(threads: seq<Thread>, shared: Shared, dead: set<nat>)

  const START := State([], Shared(map[], NoDirectory, None, false), {})

  /** How the next call of a thread answers: as it should, with the other
      regular answer, or with an unexpected error. */
  datatype Answer = Yes | No | Broken

  datatype Event = Arrive(pid: nat) | Call(i: nat, answer: Answer) | Crash(pid: nat)

  function WithoutPid(d: Directory): Directory {
    if d.Directory? then Directory(Absent) else d
  }

  predicate Owns(i: nat, pid: nat, h: Shared) {
    pid in h.entries && h.entries[pid] == i
  }

  function Unlocked(i: nat, h: Shared): Shared {
    if h.fileLock == Some(i) then h.(fileLock := None) else h
  }

  /** The next call of thread `i` of process `pid`: where it stands afterwards
      and what it changed. */
  function Act(i: nat, pid: nat, phase: Phase, h: Shared, answer: Answer): (Phase, Shared) {
    match phase
    case Storing =>
      if pid in h.entries then (Refused, h) else (Making(0), h.(entries := h.entries[pid := i]))
    case Making(attempt) =>
      if answer.Broken? then (Dropping(false), h)
      else if h.directory.NoDirectory? then (Writing, h.(directory := Directory(Absent)))
      else (Reading(attempt), h)
    case Writing =>
      if h.directory.Directory? && answer.Yes? then (Locking, h.(directory := Directory(Owner(pid))))
      else if h.directory.Directory? && answer.Broken? then (LeavingPid(false), h.(directory := Directory(Junk)))
      else (LeavingPid(false), h)
    case Reading(attempt) =>
      if h.directory.Directory? && h.directory.pidFile.Owner? && answer.Yes? then (Dropping(false), h)
      else (ClearingPid(attempt), h)
    case ClearingPid(attempt) =>
      if answer.Broken? then (Dropping(false), h)
      else (ClearingDirectory(attempt), h.(directory := WithoutPid(h.directory)))
    case ClearingDirectory(attempt) =>
      if answer.Broken? || (h.directory.Directory? && !h.directory.pidFile.Absent?) then (Dropping(false), h)
      else (if attempt == 0 then Making(1) else Dropping(false), h.(directory := NoDirectory))
    case Locking =>
      if answer.Yes? && h.fileLock.None? then (Noting, h.(fileLock := Some(i))) else (LeavingPid(false), h)
    case Noting => (if answer.Yes? then Held else Unlocking(false), h)
    case Held => (Unlocking(true), h)
    case Unlocking(closing) => (ClosingFile(closing), if answer.Yes? then Unlocked(i, h) else h)
    case ClosingFile(closing) => (if closing then Dropping(true) else LeavingPid(false), Unlocked(i, h))
    case LeavingPid(closing) =>
      (LeavingDirectory(closing), if answer.Yes? then h.(directory := WithoutPid(h.directory)) else h.(leftover := true))
    case LeavingDirectory(closing) =>
      (if closing then Closed else Dropping(false),
       if answer.Yes? && h.directory == Directory(Absent) then h.(directory := NoDirectory) else h)
    case Dropping(closing) =>
      if !closing then (Refused, h.(entries := h.entries - {pid}))
      else (LeavingPid(true), if Owns(i, pid, h) then h.(entries := h.entries - {pid}) else h)
    case _ => (phase, h)
  }

  predicate Enabled(s: State, e: Event) {
    match e
    case Arrive(pid) => pid !in s.dead
    case Call(i, _) => i < |s.threads| && Rank(s.threads[i].phase) > 0
    case Crash(pid) => pid !in s.dead
  }

  /** A process is gone: its map, its threads and its file lock with it. */
  function Crashed(s: State, pid: nat): State {
    var lock := s.shared.fileLock;
    var lost := lock.Some? && lock.value < |s.threads| && s.threads[lock.value].pid == pid;
    State(seq(|s.threads|, i requires 0 <= i < |s.threads| =>
                if s.threads[i].pid == pid then Thread(pid, Gone) else s.threads[i]),
          Shared(s.shared.entries - {pid}, s.shared.directory, if lost then None else lock, true),
          s.dead + {pid})
  }

  function Next(s: State, e: Event): State
    requires Enabled(s, e)
  {
    match e
    case Arrive(pid) => s.(threads := s.threads + [Thread(pid, Storing)])
    case Call(i, answer) =>
      var t := s.threads[i];
      var (phase, shared) := Act(i, t.pid, t.phase, s.shared, answer);
      s.(threads := s.threads[i := Thread(t.pid, phase)], shared := shared)
    case Crash(pid) => Crashed(s, pid)
  }

  function Applied(s: State, e: Event): State {
    if Enabled(s, e) then Next(s, e) else s
  }

  /** The state after a sequence of events, each skipped if it is not enabled. */
  function After(events: seq<Event>): State {
    if events == [] then START else Applied(After(events[..|events| - 1]), events[|events| - 1])
  }

  // -------------------------------------------------------------- invariants

  /** Between storing its entry and deleting it. */
  predicate Owning(phase: Phase) {
    match phase
    case Storing => false
    case Refused => false
    case Closed => false
    case Gone => false
    case LeavingPid(closing) => !closing
    case LeavingDirectory(closing) => !closing
    case _ => true
  }

  /** Between taking the file lock and giving it back, surely and at most. */
  predicate Locked(phase: Phase) {
    phase.Noting? || phase.Held? || phase.Unlocking?
  }

  predicate MayBeLocked(phase: Phase) {
    Locked(phase) || phase.ClosingFile?
  }

  ghost predicate OwnEntries(s: State) {
    && (forall i | 0 <= i < |s.threads| :: Owning(s.threads[i].phase) <==> Owns(i, s.threads[i].pid, s.shared))
    && (forall p | p in s.shared.entries ::
          s.shared.entries[p] < |s.threads| && s.threads[s.shared.entries[p]].pid == p)
  }

  ghost predicate OwnLocks(s: State) {
    && (forall i | 0 <= i < |s.threads| :: Locked(s.threads[i].phase) ==> s.shared.fileLock == Some(i))
    && (s.shared.fileLock.Some? ==>
          s.shared.fileLock.value < |s.threads| && MayBeLocked(s.threads[s.shared.fileLock.value].phase))
  }

  ghost predicate Good(s: State) {
    OwnEntries(s) && OwnLocks(s)
  }

  /** A call changes no entry but that of its own process, and that one only
      from absent to its own or back. */
  lemma ActOnEntries(i: nat, pid: nat, phase: Phase, h: Shared, answer: Answer)
    requires Owning(phase) <==> Owns(i, pid, h)
    ensures var (phase', h') := Act(i, pid, phase, h, answer);
            && (Owning(phase') <==> Owns(i, pid, h'))
            && (forall p | p != pid :: (p in h'.entries <==> p in h.entries) && (p in h.entries ==> h'.entries[p] == h.entries[p]))
            && (pid in h.entries && h.entries[pid] != i ==> h'.entries == h.entries)
            && (pid in h'.entries ==> Owns(i, pid, h') || h'.entries == h.entries)
  {
  }

  lemma ActOnLock(i: nat, pid: nat, phase: Phase, h: Shared, answer: Answer)
    requires Locked(phase) ==> h.fileLock == Some(i)
    requires h.fileLock == Some(i) ==> MayBeLocked(phase)
    ensures var (phase', h') := Act(i, pid, phase, h, answer);
            && (Locked(phase') ==> h'.fileLock == Some(i))
            && (h'.fileLock == Some(i) ==> MayBeLocked(phase'))
            && (h'.fileLock != h.fileLock ==> h.fileLock in {None, Some(i)} && h'.fileLock in {None, Some(i)})
  {
  }

  lemma CallKeepsGood(s: State, i: nat, answer: Answer)
    requires Good(s) && Enabled(s, Call(i, answer))
    ensures Good(Next(s, Call(i, answer)))
  {
    var t := s.threads[i];
    ActOnEntries(i, t.pid, t.phase, s.shared, answer);
    ActOnLock(i, t.pid, t.phase, s.shared, answer);
    CallKeeps(s, i, Act(i, t.pid, t.phase, s.shared, answer));
  }

  /** What `ActOnEntries` and `ActOnLock` say is enough, whatever the call. */
  lemma CallKeeps(s: State, i: nat, made: (Phase, Shared))
    requires Good(s) && i < |s.threads|
    requires var (pid, h, (phase', h')) := (s.threads[i].pid, s.shared, made);
             && (Owning(phase') <==> Owns(i, pid, h'))
             && (forall p | p != pid :: (p in h'.entries <==> p in h.entries) && (p in h.entries ==> h'.entries[p] == h.entries[p]))
             && (pid in h.entries && h.entries[pid] != i ==> h'.entries == h.entries)
             && (pid in h'.entries ==> Owns(i, pid, h') || h'.entries == h.entries)
             && (Locked(phase') ==> h'.fileLock == Some(i))
             && (h'.fileLock == Some(i) ==> MayBeLocked(phase'))
             && (h'.fileLock != h.fileLock ==> h.fileLock in {None, Some(i)} && h'.fileLock in {None, Some(i)})
    ensures Good(s.(threads := s.threads[i := Thread(s.threads[i].pid, made.0)], shared := made.1))
  {
  }

  lemma CrashKeepsGood(s: State, pid: nat)
    requires Good(s)
    ensures Good(Crashed(s, pid))
  {
  }

  lemma {:induction false} EveryRunIsGood(events: seq<Event>)
    ensures Good(After(events))
  {
    if events != [] {
      var s, e := After(events[..|events| - 1]), events[|events| - 1];
      EveryRunIsGood(events[..|events| - 1]);
      if Enabled(s, e) {
        match e
        case Arrive(pid) =>
        case Call(i, answer) => CallKeepsGood(s, i, answer);
        case Crash(pid) => CrashKeepsGood(s, pid);
      }
    }
  }

  /** In every interleaving of any processes and threads at most one lock is
      held and not yet closed. */
  lemma AtMostOneLock(events: seq<Event>, i: nat, j: nat)
    requires var s := After(events); i < |s.threads| && j < |s.threads| && s.threads[i].phase.Held? && s.threads[j].phase.Held?
    ensures i == j
  {
    EveryRunIsGood(events);
  }

  /** Whoever failed, closed or died keeps neither the entry nor the file lock,
      and whoever deletes an entry deletes its own. */
  lemma EveryEndGivesUp(events: seq<Event>, i: nat)
    requires i < |After(events).threads|
    ensures var s := After(events);
            var t := s.threads[i];
            && (t.phase.Refused? || t.phase.Closed? || t.phase.Gone? ==> s.shared.fileLock != Some(i) && !Owns(i, t.pid, s.shared))
            && (t.phase.Dropping? ==> Owns(i, t.pid, s.shared))
  {
    EveryRunIsGood(events);
  }

  // ---------------------------------------------------------------- progress

  /** A bound on the calls that a thread still makes, counting the close. */
  function Rank(phase: Phase): nat {
    match phase
    case Storing => 20
    case Making(attempt) => if attempt == 0 then 19 else 15
    case Reading(attempt) => if attempt == 0 then 18 else 14
    case ClearingPid(attempt) => if attempt == 0 then 17 else 13
    case ClearingDirectory(attempt) => if attempt == 0 then 16 else 12
    case Writing => 11
    case Locking => 10
    case Noting => 9
    case Held => 8
    case Unlocking(_) => 7
    case ClosingFile(_) => 6
    case Dropping(closing) => if closing then 5 else 1
    case LeavingPid(_) => 4
    case LeavingDirectory(_) => 3
    case Refused => 0
    case Closed => 0
    case Gone => 0
  }

  /** Every acquisition ends: each call brings its thread nearer to the end,
      whatever it answers and whatever the others did. */
  lemma EveryCallAdvances(i: nat, pid: nat, phase: Phase, h: Shared, answer: Answer)
    requires Rank(phase) > 0
    ensures Rank(Act(i, pid, phase, h, answer).0) < Rank(phase)
  {
  }

  // ----------------------------------------------- the directory alone is weak

  /** Between writing the pid file and removing it. */
  predicate Writes(phase: Phase) {
    phase.Locking? || phase.Noting? || phase.Held? || phase.Unlocking? || phase.ClosingFile?
    || phase == Dropping(true) || phase.LeavingPid?
  }

  predicate PidWritten(h: Shared) {
    !h.leftover && h.directory.Directory? && !h.directory.pidFile.Absent?
  }

  ghost predicate PidHasWriter(s: State) {
    PidWritten(s.shared) ==> exists i :: 0 <= i < |s.threads| && Writes(s.threads[i].phase)
  }

  /** A pid file that is there after a call was there before, or its writer has
      just written it; and only a writer that removes it stops being one. */
  lemma ActOnPid(i: nat, pid: nat, phase: Phase, h: Shared, answer: Answer)
    requires Rank(phase) > 0
    ensures var (phase', h') := Act(i, pid, phase, h, answer);
            PidWritten(h') ==> Writes(phase') || (PidWritten(h) && !Writes(phase))
  {
  }

  lemma {:induction false} EveryPidHasWriter(events: seq<Event>)
    ensures PidHasWriter(After(events))
  {
    if events != [] {
      var s, e := After(events[..|events| - 1]), events[|events| - 1];
      EveryPidHasWriter(events[..|events| - 1]);
      if Enabled(s, e) && PidWritten(Next(s, e).shared) {
        match e
        case Arrive(pid) =>
          var j :| 0 <= j < |s.threads| && Writes(s.threads[j].phase);
          assert Writes(Next(s, e).threads[j].phase);
        case Call(i, answer) =>
          ActOnPid(i, s.threads[i].pid, s.threads[i].phase, s.shared, answer);
          if !Writes(Next(s, e).threads[i].phase) {
            var j :| 0 <= j < |s.threads| && Writes(s.threads[j].phase);
            assert Writes(Next(s, e).threads[j].phase);
          }
      }
    }
  }

  /** What the next call of one thread meets: the stores as others left them, if
      they changed them, and its answer. */
  datatype Turn = Turn(found: Option<Shared>, answer: Answer)

  /** Others never touch the thread's own entry or its file lock, which
      `EveryRunIsGood` shows of all threads together. */
  function Met(i: nat, pid: nat, h: Shared, turn: Turn): Shared {
    if turn.found.Some? && (Owns(i, pid, turn.found.value) <==> Owns(i, pid, h))
       && (turn.found.value.fileLock == Some(i) <==> h.fileLock == Some(i))
    then turn.found.value
    else h
  }

  /** Thread `i` from a phase on, until it holds the lock or has ended. */
  function Course(i: nat, pid: nat, phase: Phase, h: Shared, turns: seq<Turn>): (Phase, Shared)
    decreases |turns|
  {
    if turns == [] || Rank(phase) == 0 || phase.Held? then (phase, h)
    else
      var (phase', h') := Act(i, pid, phase, Met(i, pid, h, turns[0]), turns[0].answer);
      Course(i, pid, phase', h', turns[1..])
  }

  lemma OneTurn(i: nat, pid: nat, phase: Phase, h: Shared, turns: seq<Turn>, k: nat)
    requires k < |turns| && Rank(phase) > 0 && !phase.Held?
    ensures var (phase', h') := Act(i, pid, phase, Met(i, pid, h, turns[k]), turns[k].answer);
            Course(i, pid, phase, h, turns[k..]) == Course(i, pid, phase', h', turns[k + 1..])
  {
    assert turns[k..][1..] == turns[k + 1..];
  }

  /** A course owns at its end what its phase says. */
  lemma {:induction false} CourseOwns(i: nat, pid: nat, phase: Phase, h: Shared, turns: seq<Turn>)
    requires (Owning(phase) <==> Owns(i, pid, h)) && (Locked(phase) ==> h.fileLock == Some(i))
    requires h.fileLock == Some(i) ==> MayBeLocked(phase)
    ensures var (phase', h') := Course(i, pid, phase, h, turns);
            && (Owning(phase') <==> Owns(i, pid, h')) && (Locked(phase') ==> h'.fileLock == Some(i))
            && (h'.fileLock == Some(i) ==> MayBeLocked(phase'))
    decreases |turns|
  {
    if turns != [] && Rank(phase) > 0 && !phase.Held? {
      var met := Met(i, pid, h, turns[0]);
      ActOnEntries(i, pid, phase, met, turns[0].answer);
      ActOnLock(i, pid, phase, met, turns[0].answer);
      var (phase', h') := Act(i, pid, phase, met, turns[0].answer);
      CourseOwns(i, pid, phase', h', turns[1..]);
    }
  }

  /** The directory is held by a process that is alive. */
  predicate HeldBy(d: Directory, alive: bool) {
    d.Directory? && d.pidFile.Owner? && alive
  }

  /** Nobody else acts, and every call answers as it should; `alive` says whether
      the process named in the directory is. */
  predicate Undisturbed(h: Shared, alive: bool, turns: seq<Turn>) {
    && |turns| >= 9
    && forall k | 0 <= k < |turns| :: turns[k] == Turn(None, if k == 2 && h.directory.Directory? && !alive then No else Yes)
  }

  /** An undisturbed acquisition gets the lock exactly if its process has no entry
      for the path, no live process holds the directory, and the file is not
      locked; whatever stands in its way, it takes nothing. */
  lemma TakenExactly(i: nat, pid: nat, h: Shared, alive: bool, turns: seq<Turn>)
    requires Undisturbed(h, alive, turns) && !Owns(i, pid, h) && h.fileLock != Some(i)
    ensures var free := pid !in h.entries && !HeldBy(h.directory, alive) && h.fileLock.None?;
            Course(i, pid, Storing, h, turns).0.Held? <==> free
  {
    assert turns[0..] == turns;
    OneTurn(i, pid, Storing, h, turns, 0);
    if pid !in h.entries {
      var h1 := h.(entries := h.entries[pid := i]);
      OneTurn(i, pid, Making(0), h1, turns, 1);
      if h.directory.NoDirectory? {
        WritesAndLocks(i, pid, h1, turns, 2);
      } else {
        ReadsDirectory(i, pid, h1, alive, turns);
      }
    }
  }

  /** A directory that is there is taken over exactly if nobody alive holds it. */
  lemma ReadsDirectory(i: nat, pid: nat, h: Shared, alive: bool, turns: seq<Turn>)
    requires Undisturbed(h, alive, turns) && h.directory.Directory? && h.fileLock != Some(i)
    ensures Course(i, pid, Reading(0), h, turns[2..]).0.Held? <==> !HeldBy(h.directory, alive) && h.fileLock.None?
  {
    OneTurn(i, pid, Reading(0), h, turns, 2);
    if HeldBy(h.directory, alive) {
      LeavesUnlocked(i, pid, Dropping(false), h, turns[3..]);
    } else {
      var cleared := h.(directory := Directory(Absent));
      OneTurn(i, pid, ClearingPid(0), h, turns, 3);
      OneTurn(i, pid, ClearingDirectory(0), cleared, turns, 4);
      OneTurn(i, pid, Making(1), h.(directory := NoDirectory), turns, 5);
      WritesAndLocks(i, pid, h, turns, 6);
    }
  }

  /** From a directory of its own on, the file lock decides. */
  lemma WritesAndLocks(i: nat, pid: nat, h: Shared, turns: seq<Turn>, k: nat)
    requires k + 3 <= |turns| && forall j | k <= j < |turns| :: turns[j] == Turn(None, Yes)
    ensures var own := h.(directory := Directory(Absent));
            Course(i, pid, Writing, own, turns[k..]).0.Held? <==> h.fileLock.None?
  {
    var own := h.(directory := Directory(Owner(pid)));
    OneTurn(i, pid, Writing, h.(directory := Directory(Absent)), turns, k);
    OneTurn(i, pid, Locking, own, turns, k + 1);
    if h.fileLock.None? {
      OneTurn(i, pid, Noting, own.(fileLock := Some(i)), turns, k + 2);
    } else {
      LeavesUnlocked(i, pid, LeavingPid(false), own, turns[k + 2..]);
    }
  }

  /** Nothing after a failure leads back to the lock. */
  predicate Leaving(phase: Phase) {
    phase in {Unlocking(false), ClosingFile(false), LeavingPid(false), LeavingDirectory(false), Dropping(false), Refused}
  }

  lemma {:induction false} LeavesUnlocked(i: nat, pid: nat, phase: Phase, h: Shared, turns: seq<Turn>)
    requires Leaving(phase)
    ensures Leaving(Course(i, pid, phase, h, turns).0)
    decreases |turns|
  {
    if turns != [] && Rank(phase) > 0 {
      var (phase', h') := Act(i, pid, phase, Met(i, pid, h, turns[0]), turns[0].answer);
      LeavesUnlocked(i, pid, phase', h', turns[1..]);
    }
  }

  /** A close that nobody disturbs leaves nothing of the lock behind. */
  lemma CloseCleansUp(i: nat, pid: nat, h: Shared, turns: seq<Turn>)
    requires |turns| >= 5 && (forall k | 0 <= k < |turns| :: turns[k] == Turn(None, Yes))
    requires Owns(i, pid, h) && h.fileLock == Some(i) && h.directory == Directory(Owner(pid))
    ensures Course(i, pid, Unlocking(true), h, turns)
            == (Closed, h.(entries := h.entries - {pid}, directory := NoDirectory, fileLock := None))
  {
    assert turns[0..] == turns;
    var h1 := h.(fileLock := None);
    var h2 := h1.(entries := h.entries - {pid});
    OneTurn(i, pid, Unlocking(true), h, turns, 0);
    OneTurn(i, pid, ClosingFile(true), h1, turns, 1);
    OneTurn(i, pid, Dropping(true), h1, turns, 2);
    OneTurn(i, pid, LeavingPid(true), h2, turns, 3);
    OneTurn(i, pid, LeavingDirectory(true), h2.(directory := Directory(Absent)), turns, 4);
  }

  /** Once every acquisition has ended, and neither a crash nor a failed removal
      left a pid file, a new acquisition that nobody disturbs gets the lock. */
  lemma QuietPathIsFree(events: seq<Event>, i: nat, pid: nat, alive: bool, turns: seq<Turn>)
    requires var s := After(events);
             i == |s.threads| && !s.shared.leftover && pid !in s.dead && forall t | t in s.threads :: Rank(t.phase) == 0
    requires Undisturbed(After(events).shared, alive, turns)
    ensures Course(i, pid, Storing, After(events).shared, turns).0.Held?
  {
    EveryRunIsGood(events);
    EveryPidHasWriter(events);
    var s := After(events);
    assert forall j | 0 <= j < i :: s.threads[j] in s.threads;
    TakenExactly(i, pid, s.shared, alive, turns);
  }

  ghost predicate Reachable(s: State) {
    exists events :: After(events) == s
  }

  lemma ReachOne(s: State, e: Event)
    requires Reachable(s)
    ensures Reachable(Applied(s, e))
  {
    var events :| After(events) == s;
    assert (events + [e])[..|events|] == events;
    assert After(events + [e]) == Applied(s, e);
  }

  /** One call of the first or the second of two threads, answered as it should be. */
  lemma ReachCall(a: Thread, b: Thread, h: Shared, first: bool)
    requires Reachable(State([a, b], h, {})) && Rank(if first then a.phase else b.phase) > 0
    ensures first ==> var (phase, h') := Act(0, a.pid, a.phase, h, Yes); Reachable(State([Thread(a.pid, phase), b], h', {}))
    ensures !first ==> var (phase, h') := Act(1, b.pid, b.phase, h, Yes); Reachable(State([a, Thread(b.pid, phase)], h', {}))
  {
    ReachOne(State([a, b], h, {}), Call(if first then 0 else 1, Yes));
    if first {
      assert [a, b][0 := Thread(a.pid, Act(0, a.pid, a.phase, h, Yes).0)] == [Thread(a.pid, Act(0, a.pid, a.phase, h, Yes).0), b];
    } else {
      assert [a, b][1 := Thread(b.pid, Act(1, b.pid, b.phase, h, Yes).0)] == [a, Thread(b.pid, Act(1, b.pid, b.phase, h, Yes).0)];
    }
  }

  /** The shared directory alone excludes nobody: a second process can take it
      for stale before the first one has written its pid, and both come past it. */
  lemma DirectoryAdmitsTwo()
    ensures exists s :: Reachable(s) && s.dead == {} && |s.threads| == 2 && s.threads[0].pid != s.threads[1].pid
              && s.threads[0].phase == Locking && s.threads[1].phase == Locking
  {
    var none := START.shared;
    var one := none.(entries := map[1 := 0]);
    var both := none.(entries := map[1 := 0, 2 := 1]);
    var empty := both.(directory := Directory(Absent));
    assert After([]) == START;
    ReachOne(START, Arrive(1));
    ReachOne(State([Thread(1, Storing)], none, {}), Arrive(2));
    assert [Thread(1, Storing)] + [Thread(2, Storing)] == [Thread(1, Storing), Thread(2, Storing)];
    ReachCall(Thread(1, Storing), Thread(2, Storing), none, true);
    assert Reachable(State([Thread(1, Making(0)), Thread(2, Storing)], one, {}));
    ReachCall(Thread(1, Making(0)), Thread(2, Storing), one, false);
    assert Reachable(State([Thread(1, Making(0)), Thread(2, Making(0))], both, {}));
    ReachCall(Thread(1, Making(0)), Thread(2, Making(0)), both, true);
    ReachCall(Thread(1, Writing), Thread(2, Making(0)), empty, false);
    ReachCall(Thread(1, Writing), Thread(2, Reading(0)), empty, false);
    ReachCall(Thread(1, Writing), Thread(2, ClearingPid(0)), empty, false);
    ReachCall(Thread(1, Writing), Thread(2, ClearingDirectory(0)), empty, false);
    ReachCall(Thread(1, Writing), Thread(2, Making(1)), both, false);
    ReachCall(Thread(1, Writing), Thread(2, Writing), empty, true);
    ReachCall(Thread(1, Locking), Thread(2, Writing), both.(directory := Directory(Owner(1))), false);
    var s := State([Thread(1, Locking), Thread(2, Locking)], both.(directory := Directory(Owner(2))), {});
    assert Reachable(s);
  }

  // ------------------------------------------------------- one acquisition

  /** The three stores, as one acquisition with identity `me` in process `pid`
      meets them; `turns` says what each of its calls meets, and `goal` is where
      its course leads. */
  class ConfigLock {
    const pid: nat
    const me: nat
    var entries: map<nat, nat>
    var directory: Directory
    var fileLock: Option<nat>
    var leftover: bool

    ghost function View(): Shared
      reads this
    {
      Shared(entries, directory, fileLock, leftover)
    }

    /** From here on the course leads to `goal`. */
    ghost predicate Leads(phase: Phase, turns: seq<Turn>, k: nat, goal: (Phase, Shared))
      reads this
    {
      k <= |turns| && Course(me, pid, phase, View(), turns[k..]) == goal
    }

    /** Others act before the next call. */
    method OthersAct(turn: Turn)
      modifies this
      ensures View() == Met(me, pid, old(View()), turn)
    {
      var h := Met(me, pid, Shared(entries, directory, fileLock, leftover), turn);
      entries, directory, fileLock, leftover := h.entries, h.directory, h.fileLock, h.leftover;
    }

    method ReleaseShared(closing: bool, turns: seq<Turn>, k: nat, ghost goal: (Phase, Shared)) returns (next: nat)
      requires Leads(LeavingPid(closing), turns, k, goal) && k + 2 <= |turns|
      modifies this
      ensures next == k + 2 && Leads(if closing then Closed else Dropping(false), turns, next, goal)
    {
      OneTurn(me, pid, LeavingPid(closing), View(), turns, k);
      OthersAct(turns[k]);
      if turns[k].answer.Yes? { directory := WithoutPid(directory); } else { leftover := true; }
      OneTurn(me, pid, LeavingDirectory(closing), View(), turns, k + 1);
      OthersAct(turns[k + 1]);
      if turns[k + 1].answer.Yes? && directory == Directory(Absent) { directory := NoDirectory; }
      next := k + 2;
    }

    /** Takes the directory, in two rounds at most; a stale one is removed. */
    method AcquireShared(turns: seq<Turn>, first: nat, ghost goal: (Phase, Shared)) returns (ok: bool, k: nat)
      requires Leads(Making(0), turns, first, goal) && first + 8 <= |turns|
      modifies this
      ensures first < k <= first + 8 && Leads(if ok then Locking else Dropping(false), turns, k, goal)
    {
      k := first;
      for attempt := 0 to 2
        invariant k == first + 4 * attempt
        invariant Leads(if attempt < 2 then Making(attempt) else Dropping(false), turns, k, goal)
      {
        OneTurn(me, pid, Making(attempt), View(), turns, k);
        OthersAct(turns[k]);
        if turns[k].answer.Broken? { return false, k + 1; }
        if directory.NoDirectory? {
          directory := Directory(Absent);
          ok, k := WritePid(turns, k + 1, goal);
          return;
        }
        var cleared;
        cleared, k := ClearStale(attempt, turns, k + 1, goal);
        if !cleared { return false, k; }
      }
      ok := false;
    }

    /** Removes a directory that no live process holds. */
    method ClearStale(attempt: nat, turns: seq<Turn>, k: nat, ghost goal: (Phase, Shared)) returns (ok: bool, next: nat)
      requires attempt < 2 && Leads(Reading(attempt), turns, k, goal) && k + 3 <= |turns|
      modifies this
      ensures k < next <= k + 3 && (ok ==> next == k + 3)
      ensures Leads(if ok && attempt == 0 then Making(1) else Dropping(false), turns, next, goal)
    {
      OneTurn(me, pid, Reading(attempt), View(), turns, k);
      OthersAct(turns[k]);
      if directory.Directory? && directory.pidFile.Owner? && turns[k].answer.Yes? { return false, k + 1; }
      OneTurn(me, pid, ClearingPid(attempt), View(), turns, k + 1);
      OthersAct(turns[k + 1]);
      if turns[k + 1].answer.Broken? { return false, k + 2; }
      directory := WithoutPid(directory);
      OneTurn(me, pid, ClearingDirectory(attempt), View(), turns, k + 2);
      OthersAct(turns[k + 2]);
      if turns[k + 2].answer.Broken? || (directory.Directory? && !directory.pidFile.Absent?) { return false, k + 3; }
      directory := NoDirectory;
      ok, next := true, k + 3;
    }

    /** Writes the pid into the directory just made; a failed write gives it up. */
    method WritePid(turns: seq<Turn>, k: nat, ghost goal: (Phase, Shared)) returns (ok: bool, next: nat)
      requires Leads(Writing, turns, k, goal) && k + 3 <= |turns|
      modifies this
      ensures k < next <= k + 3 && Leads(if ok then Locking else Dropping(false), turns, next, goal)
    {
      OneTurn(me, pid, Writing, View(), turns, k);
      OthersAct(turns[k]);
      if directory.Directory? && turns[k].answer.Yes? {
        directory := Directory(Owner(pid));
        return true, k + 1;
      }
      if directory.Directory? && turns[k].answer.Broken? { directory := Directory(Junk); }
      next := ReleaseShared(false, turns, k + 1, goal);
      ok := false;
    }

    method ReleaseFile(closing: bool, turns: seq<Turn>, k: nat, ghost goal: (Phase, Shared)) returns (next: nat)
      requires Leads(Unlocking(closing), turns, k, goal) && k + 2 <= |turns|
      modifies this
      ensures next == k + 2 && Leads(if closing then Dropping(true) else LeavingPid(false), turns, next, goal)
    {
      OneTurn(me, pid, Unlocking(closing), View(), turns, k);
      OthersAct(turns[k]);
      if turns[k].answer.Yes? && fileLock == Some(me) { fileLock := None; }
      OneTurn(me, pid, ClosingFile(closing), View(), turns, k + 1);
      OthersAct(turns[k + 1]);
      if fileLock == Some(me) { fileLock := None; }
      next := k + 2;
    }

    /** A failed acquisition deletes the entry it has stored, a close only its own. */
    method DropEntry(closing: bool, turns: seq<Turn>, k: nat, ghost goal: (Phase, Shared))
      requires Leads(Dropping(closing), turns, k, goal) && k < |turns|
      modifies this
      ensures Leads(if closing then LeavingPid(true) else Refused, turns, k + 1, goal)
    {
      OneTurn(me, pid, Dropping(closing), View(), turns, k);
      OthersAct(turns[k]);
      if !closing || (pid in entries && entries[pid] == me) { entries := entries - {pid}; }
    }

    /** An acquisition takes exactly its course: success holds the entry and the
        file lock, failure neither. */
    method Acquire(turns: seq<Turn>) returns (ok: bool)
      requires |turns| >= 20 && !Owns(me, pid, View()) && fileLock != Some(me)
      modifies this
      ensures (if ok then Held else Refused, View()) == Course(me, pid, Storing, old(View()), turns)
      ensures (Owns(me, pid, View()) <==> ok) && (fileLock == Some(me) <==> ok)
    {
      ghost var goal := Course(me, pid, Storing, View(), turns);
      CourseOwns(me, pid, Storing, View(), turns);
      assert turns[0..] == turns;
      OneTurn(me, pid, Storing, View(), turns, 0);
      OthersAct(turns[0]);
      if pid in entries { return false; }
      entries := entries[pid := me];
      var k;
      ok, k := AcquireShared(turns, 1, goal);
      if !ok {
        DropEntry(false, turns, k, goal);
        return;
      }
      ok, k := AcquireFile(turns, k, goal);
      if !ok { DropEntry(false, turns, k, goal); }
    }

    /** Takes the file lock and notes its owner in the file. */
    method AcquireFile(turns: seq<Turn>, first: nat, ghost goal: (Phase, Shared)) returns (ok: bool, k: nat)
      requires Leads(Locking, turns, first, goal) && first + 6 <= |turns|
      modifies this
      ensures first < k <= first + 6 && Leads(if ok then Held else Dropping(false), turns, k, goal)
    {
      k := first;
      OneTurn(me, pid, Locking, View(), turns, k);
      OthersAct(turns[k]);
      if !turns[k].answer.Yes? || fileLock.Some? {
        k := ReleaseShared(false, turns, k + 1, goal);
        return false, k;
      }
      fileLock := Some(me);
      OneTurn(me, pid, Noting, View(), turns, k + 1);
      OthersAct(turns[k + 1]);
      if turns[k + 1].answer.Yes? { return true, k + 2; }
      k := ReleaseFile(false, turns, k + 2, goal);
      k := ReleaseShared(false, turns, k, goal);
      ok := false;
    }

    method Close(turns: seq<Turn>)
      requires |turns| >= 5 && Owns(me, pid, View()) && fileLock == Some(me)
      modifies this
      ensures (Closed, View()) == Course(me, pid, Unlocking(true), old(View()), turns)
      ensures !Owns(me, pid, View()) && fileLock != Some(me)
    {
      ghost var goal := Course(me, pid, Unlocking(true), View(), turns);
      CourseOwns(me, pid, Unlocking(true), View(), turns);
      assert turns[0..] == turns;
      var k := ReleaseFile(true, turns, 0, goal);
      DropEntry(true, turns, k, goal);
      k := ReleaseShared(true, turns, k + 1, goal);
    }
  }
}
