/** Reconciling the build cache builder of one configuration with its ownership
    metadata, while the Docker backend may change at any time. A script says how
    each command goes. */
module BuildxReconcile {
  import opened Text
  import opened Wrappers

  const SCHEMA := 5
  const MIGRATABLE := 4

  // ----------------------------------------------------------------- metadata

  /** Who owns a builder; paths are cleaned. */
  datatype Ownership = Ownership(builder: string, driver: string, projectRoot: string, configId: string,
                                 eparConfigPath: string, configPath: string)

  /** What a builder was set up with. */
  datatype Setup = Setup(cacheLimit: string, configHash: string, trustGeneration: string, bundle: string,
                         bundleHash: string, registryHosts: seq<string>, imageId: string)

  datatype Metadata = Metadata(schema: int, owner: Ownership, backend: string, setup: Setup,
                               createdAt: Option<int>, reconciledAt: int)

  datatype File = Absent | Junk | Stored(metadata: Metadata)

  datatype Loaded = NoFile | Invalid | Owned(metadata: Metadata)

  predicate ValidBackend(value: string) {
    && HasPrefix(value, "docker:") && |value| > 7
    && forall i | 7 <= i < |value| :: !IsSpace(value[i]) && !IsControl(value[i])
  }

  predicate IsControl(c: char) {
    c < ' ' || '\U{7f}' <= c <= '\U{9f}'
  }

  function Load(file: File, owner: Ownership): Loaded {
    match file
    case Absent => NoFile
    case Junk => Invalid
    case Stored(m) =>
      if (m.schema != SCHEMA && m.schema != MIGRATABLE) || m.owner != owner then Invalid
      else if m.schema == MIGRATABLE && m.backend != "" then Invalid
      else if m.schema == SCHEMA && !ValidBackend(m.backend) then Invalid
      else Owned(m)
  }

  predicate Recreate(actual: Metadata, expected: Metadata, nodeError: bool, nodes: nat) {
    || nodeError || nodes > 1
    || (actual.schema == SCHEMA && actual.backend != expected.backend)
    || actual.owner != expected.owner || actual.setup != expected.setup
  }

  // ------------------------------------------------------------------ scripts

  /** A detach, and whether the inspection after it can be read. */
  datatype RemoveScript = RemoveScript(command: Fault, readable: bool)

  /** The commands of one attempt: `backend`, `pulledOn` and `confirmed` are the
      readings of the daemon identity, `pulled` the image identity, `readable`
      to `nodes` the first inspection. */
  datatype AttemptScript = AttemptScript(backend: Option<string>, pulled: Option<string>, pulledOn: Option<string>,
                                         readable: bool, nodeError: bool, nodes: nat, drop: RemoveScript, create: Fault,
                                         verify: Fault, confirmed: Option<string>, discard: RemoveScript, write: Fault, now: int)

  /** The backend that a reading of the daemon identity names. */
  function BackendOf(reading: Option<string>): Option<string> {
    if reading.None? || TrimSpace(reading.value) == "" then None else Some("docker:" + TrimSpace(reading.value))
  }

  // ------------------------------------------------------------------ history

  /** What one attempt did to the outside, in order. */
  datatype Event =
    | Locked(backend: string)
    | Detach
    | Create
    | Verified(setup: Setup)
    | Reread(backend: string)
    | Publish(metadata: Metadata)

  datatype Image = Resolved(id: string) | BackendChanged | Unresolved

  datatype World = World(builder: bool, file: File)

  datatype Result = Ready | Retry | Stopped

  // ------------------------------------------------------------------- one run

  /** Detaches the builder; only the inspection afterwards counts. */
  function RemovedBy(w: World, s: RemoveScript): (World, bool) {
    var w1 := if Lands(s.command) then w.(builder := false) else w;
    (w1, s.readable && !w1.builder)
  }

  function ImageOf(backend: string, s: AttemptScript): Image {
    var again := BackendOf(s.pulledOn);
    if s.pulled.None? || s.pulled.value == "" || again.None? then Unresolved
    else if again.value != backend then BackendChanged
    else Resolved(s.pulled.value)
  }

  function CreatedBy(w: World, before: seq<Event>, f: Fault): (World, bool, seq<Event>) {
    if Lands(f) then (w.(builder := true), f.Works?, before + [Create]) else (w, false, before)
  }

  /** Brings the builder to its expected definition, recreating it if need be. */
  function PreparedBy(w: World, owned: Option<Metadata>, expected: Metadata, s: AttemptScript): (World, bool, seq<Event>) {
    if owned.Some? && owned.value.schema == SCHEMA && owned.value.backend != expected.backend then
      var (w1, gone) := RemovedBy(w, s.drop);
      if gone then CreatedBy(w1, [Detach], s.create) else (w1, false, [Detach])
    else if !s.readable || (w.builder && owned.None?) then (w, false, [])
    else if !w.builder then CreatedBy(w, [], s.create)
    else if Recreate(owned.value, expected, s.nodeError, s.nodes) then
      var (w1, gone) := RemovedBy(w, s.drop);
      if gone then CreatedBy(w1, [Detach], s.create) else (w1, false, [Detach])
    else (w, true, [])
  }

  /** Verify, read the backend again, publish. */
  function SettledBy(w: World, owned: Option<Metadata>, expected: Metadata, last: bool, s: AttemptScript): (World, Result, seq<Event>) {
    if !s.verify.Works? then
      if last then (w, Stopped, [])
      else
        var (w1, gone) := RemovedBy(w, s.discard);
        (w1, if gone then Retry else Stopped, [Detach])
    else
      var again := BackendOf(s.confirmed);
      if again.None? then (w, Stopped, [Verified(expected.setup)])
      else if again.value != expected.backend then
        var (w1, gone) := RemovedBy(w, s.discard);
        (w1, if gone && !last then Retry else Stopped, [Verified(expected.setup), Reread(again.value), Detach])
      else
        var published := Published(owned, expected, s.now);
        if Lands(s.write)
        then (w.(file := Stored(published)), if s.write.Works? then Ready else Stopped,
              [Verified(expected.setup), Reread(again.value), Publish(published)])
        else (w, Stopped, [Verified(expected.setup), Reread(again.value)])
  }

  function Published(owned: Option<Metadata>, expected: Metadata, now: int): Metadata {
    expected.(createdAt := if owned.Some? && owned.value.createdAt.Some? then owned.value.createdAt else Some(now), reconciledAt := now)
  }

  function Expected(owner: Ownership, setup: Setup, backend: string, image: string): Metadata {
    Metadata(SCHEMA, owner, backend, setup.(imageId := image), None, 0)
  }

  function AttemptedBy(owner: Ownership, w: World, owned: Option<Metadata>, setup: Setup, last: bool, s: AttemptScript)
      : (World, Result, seq<Event>) {
    var backend := BackendOf(s.backend);
    if backend.None? then (w, Stopped, [])
    else
      var image := ImageOf(backend.value, s);
      match image
      case BackendChanged => (w, if last then Stopped else Retry, [Locked(backend.value)])
      case Unresolved => (w, Stopped, [Locked(backend.value)])
      case Resolved(id) =>
        var expected := Expected(owner, setup, backend.value, id);
        var (w1, ok, prepared) := PreparedBy(w, owned, expected, s);
        if !ok then (w1, Stopped, [Locked(backend.value)] + prepared)
        else
          var (w2, r, settled) := SettledBy(w1, owned, expected, last, s);
          (w2, r, [Locked(backend.value)] + prepared + settled)
  }

  function OwnedAt(owner: Ownership, w: World): Option<Metadata> {
    var loaded := Load(w.file, owner);
    if loaded.Owned? then Some(loaded.metadata) else None
  }

  /** At most two attempts; the metadata is read once, before the first. */
  function EnsuredBy(owner: Ownership, w: World, setup: Setup, s: AttemptScript, t: AttemptScript): (World, bool, seq<seq<Event>>) {
    if Load(w.file, owner).Invalid? then (w, false, [])
    else
      var (w1, r1, first) := AttemptedBy(owner, w, OwnedAt(owner, w), setup, false, s);
      if !r1.Retry? then (w1, r1.Ready?, [first])
      else
        var (w2, r2, second) := AttemptedBy(owner, w1, OwnedAt(owner, w), setup, true, t);
        (w2, r2.Ready?, [first, second])
  }

  // --------------------------------------------------------------- reconciler

  class Reconciler {
    const owner: Ownership
    var builder: bool
    var file: File

    ghost function View(): World
      reads this
    {
      World(builder, file)
    }

    method Remove(s: RemoveScript) returns (ok: bool)
      modifies `builder
      ensures (View(), ok) == RemovedBy(old(View()), s)
    {
      if Lands(s.command) { builder := false; }
      ok := s.readable && !builder;
    }

    method Prepare(owned: Option<Metadata>, expected: Metadata, s: AttemptScript) returns (ok: bool, events: seq<Event>)
      modifies `builder
      ensures (View(), ok, events) == PreparedBy(old(View()), owned, expected, s)
    {
      events := [];
      var needsCreate: bool;
      if owned.Some? && owned.value.schema == SCHEMA && owned.value.backend != expected.backend {
        events := [Detach];
        ok := Remove(s.drop);
        if !ok { return; }
        needsCreate := true;
      } else {
        if !s.readable { return false, []; }
        if builder && owned.None? { return false, []; }
        needsCreate := !builder;
        if builder && Recreate(owned.value, expected, s.nodeError, s.nodes) {
          events := [Detach];
          ok := Remove(s.drop);
          if !ok { return; }
          needsCreate := true;
        }
      }
      ok := true;
      if needsCreate {
        if Lands(s.create) {
          builder := true;
          events := events + [Create];
        }
        ok := s.create.Works?;
      }
    }

    method Settle(owned: Option<Metadata>, expected: Metadata, last: bool, s: AttemptScript) returns (r: Result, events: seq<Event>)
      modifies this
      ensures (View(), r, events) == SettledBy(old(View()), owned, expected, last, s)
    {
      if !s.verify.Works? {
        if last { return Stopped, []; }
        var removed := Remove(s.discard);
        return if removed then Retry else Stopped, [Detach];
      }
      var verified := Verified(expected.setup);
      events := [verified];
      var again := BackendOf(s.confirmed);
      if again.None? { return Stopped, events; }
      events := [verified, Reread(again.value)];
      if again.value != expected.backend {
        var removed := Remove(s.discard);
        events := [verified, Reread(again.value), Detach];
        if !removed { return Stopped, events; }
        return if last then Stopped else Retry, events;
      }
      var created := if owned.Some? && owned.value.createdAt.Some? then owned.value.createdAt else Some(s.now);
      var published := expected.(createdAt := created, reconciledAt := s.now);
      if Lands(s.write) {
        file := Stored(published);
        events := [verified, Reread(again.value), Publish(published)];
      }
      r := if s.write.Works? then Ready else Stopped;
    }

    method Attempt(owned: Option<Metadata>, setup: Setup, last: bool, s: AttemptScript) returns (r: Result, events: seq<Event>)
      modifies this
      ensures (View(), r, events) == AttemptedBy(owner, old(View()), owned, setup, last, s)
    {
      var backend := BackendOf(s.backend);
      if backend.None? { return Stopped, []; }
      var start := [Locked(backend.value)];
      var image := ImageOf(backend.value, s);
      if image.BackendChanged? { return if last then Stopped else Retry, start; }
      if image.Unresolved? { return Stopped, start; }
      var expected := Expected(owner, setup, backend.value, image.id);
      var ready, prepared := Prepare(owned, expected, s);
      if !ready { return Stopped, start + prepared; }
      var settled;
      r, settled := Settle(owned, expected, last, s);
      events := start + prepared + settled;
    }

    method EnsureBuilder(setup: Setup, scripts: seq<AttemptScript>) returns (ok: bool, attempts: seq<seq<Event>>)
      requires |scripts| == 2
      modifies this
      ensures (View(), ok, attempts) == EnsuredBy(owner, old(View()), setup, scripts[0], scripts[1])
    {
      attempts := [];
      var loaded := Load(file, owner);
      if loaded.Invalid? { return false, []; }
      var owned := if loaded.Owned? then Some(loaded.metadata) else None;
      ok := false;
      var retry, attempt := true, 0;
      ghost var first := AttemptedBy(owner, old(View()), owned, setup, false, scripts[0]);
      while retry && attempt < 2
        invariant 0 <= attempt <= 2
        invariant attempt == 0 ==> retry && View() == old(View()) && attempts == []
        invariant attempt == 1 ==> View() == first.0 && retry == first.1.Retry? && ok == first.1.Ready? && attempts == [first.2]
        invariant attempt == 2 ==> !retry && (View(), ok, attempts) == EnsuredBy(owner, old(View()), setup, scripts[0], scripts[1])
      {
        var r, events := Attempt(owned, setup, attempt == 1, scripts[attempt]);
        assert attempts + [events] == if attempt == 0 then [events] else [first.2, events];
        attempts := attempts + [events];
        retry, ok := r.Retry?, r.Ready?;
        attempt := attempt + 1;
      }
    }
  }

  // --------------------------------------------------- what one attempt may do

  /** The metadata that an attempt on a backend may publish. */
  ghost predicate MayPublish(m: Metadata, owned: Option<Metadata>, owner: Ownership, backend: string) {
    && m.schema == SCHEMA && m.owner == owner && m.backend == backend && m.createdAt.Some?
    && (owned.Some? && owned.value.createdAt.Some? ==> m.createdAt == owned.value.createdAt)
  }

  /** Each detach is preceded by a create in the same attempt, unless the
      metadata showed ownership before. */
  ghost predicate DetachesOwn(events: seq<Event>, owned: bool) {
    owned || forall i | 0 <= i < |events| && events[i].Detach? :: exists j | 0 <= j < i :: events[j].Create?
  }

  /** A published metadata ends an attempt that, between two equal readings of
      the backend, verified a builder with exactly this setup, and neither
      detached nor created one afterwards. */
  ghost predicate PublishesVerified(events: seq<Event>) {
    forall i | 0 <= i < |events| && events[i].Publish? ::
      && i == |events| - 1 >= 3
      && events[0] == Locked(events[i].metadata.backend)
      && events[i - 2] == Verified(events[i].metadata.setup)
      && events[i - 1] == Reread(events[i].metadata.backend)
  }

  ghost predicate OneLock(events: seq<Event>) {
    forall i | 0 < i < |events| :: !events[i].Locked?
  }

  ghost predicate PublishedBy(owner: Ownership, owned: Option<Metadata>, file: File, events: seq<Event>) {
    && events != [] && events[0].Locked? && file.Stored?
    && events[|events| - 1] == Publish(file.metadata)
    && MayPublish(file.metadata, owned, owner, events[0].backend)
  }

  /** One attempt, with the metadata found before the run. */
  ghost predicate Attempts(owner: Ownership, owned: Option<Metadata>, last: bool, w: World, w': World, events: seq<Event>, r: Result) {
    && DetachesOwn(events, owned.Some?) && PublishesVerified(events) && OneLock(events)
    && (w'.file == w.file || PublishedBy(owner, owned, w'.file, events))
    && (r.Ready? ==> w'.builder && PublishedBy(owner, owned, w'.file, events))
    && (r.Retry? ==> !last && (!w'.builder || w'.builder == w.builder) && w'.file == w.file)
    && (owned.None? && w.builder ==> !r.Ready? && w' == w && forall e | e in events :: e.Locked?)
  }

  lemma Begun(backend: string, prepared: seq<Event>, owned: bool)
    requires DetachesOwn(prepared, owned) && forall e | e in prepared :: e.Detach? || e.Create?
    ensures DetachesOwn([Locked(backend)] + prepared, owned)
    ensures PublishesVerified([Locked(backend)] + prepared) && OneLock([Locked(backend)] + prepared)
  {
    var all := [Locked(backend)] + prepared;
    forall i | 0 < i < |all| ensures all[i] in prepared {
      assert all[i] == prepared[i - 1];
    }
    if !owned {
      forall i | 0 <= i < |all| && all[i].Detach? ensures exists j | 0 <= j < i :: all[j].Create? {
        var j :| 0 <= j < i - 1 && prepared[j].Create?;
        assert all[j + 1].Create?;
      }
    }
  }

  lemma Composed(backend: string, prepared: seq<Event>, settled: seq<Event>, owned: bool)
    requires DetachesOwn(prepared, owned) && forall e | e in prepared :: e.Detach? || e.Create?
    requires owned || prepared == [Create]
    requires forall i | 0 <= i < |settled| :: !settled[i].Locked? && !settled[i].Create?
    requires forall i | 0 <= i < |settled| && settled[i].Publish? ::
               i == |settled| - 1 == 2 && settled[0] == Verified(settled[i].metadata.setup) && settled[1] == Reread(backend)
               && settled[i].metadata.backend == backend
    ensures var all := [Locked(backend)] + prepared + settled;
            DetachesOwn(all, owned) && PublishesVerified(all) && OneLock(all)
  {
    var start := [Locked(backend)] + prepared;
    var all := start + settled;
    Begun(backend, prepared, owned);
    forall i | 0 < i < |start| ensures !all[i].Locked? && !all[i].Publish? {
      assert start[i] == prepared[i - 1] && prepared[i - 1] in prepared;
    }
    forall i | |start| <= i < |all| ensures all[i] == settled[i - |start|] {
    }
    if !owned {
      assert all[1].Create?;
      assert !all[0].Detach? && !all[1].Detach?;
    }
  }

  lemma PreparedIsOwn(w: World, owned: Option<Metadata>, expected: Metadata, s: AttemptScript)
    ensures var (w', ok, events) := PreparedBy(w, owned, expected, s);
            && DetachesOwn(events, owned.Some?) && (forall e | e in events :: e.Detach? || e.Create?)
            && w'.file == w.file && (ok ==> w'.builder) && (ok && owned.None? ==> events == [Create])
            && (owned.None? && w.builder ==> !ok && w' == w && events == [])
  {
  }

  /** What an attempt does once the builder is there. */
  ghost predicate Settles(owner: Ownership, owned: Option<Metadata>, backend: string, last: bool, w: World, w': World,
                          r: Result, events: seq<Event>) {
    && (forall i | 0 <= i < |events| :: !events[i].Locked? && !events[i].Create?)
    && (forall i | 0 <= i < |events| && events[i].Publish? ::
          i == |events| - 1 == 2 && events[0] == Verified(events[i].metadata.setup) && events[1] == Reread(backend)
          && events[i].metadata.backend == backend)
    && (w'.file != w.file || r.Ready? ==>
          w'.builder && w'.file.Stored? && MayPublish(w'.file.metadata, owned, owner, backend)
          && |events| == 3 && events[2] == Publish(w'.file.metadata))
    && (r.Retry? ==> !last && !w'.builder && w'.file == w.file)
  }

  lemma SettledSettles(owner: Ownership, w: World, owned: Option<Metadata>, expected: Metadata, last: bool, s: AttemptScript)
    requires w.builder && expected.owner == owner && expected.schema == SCHEMA
    ensures var (w', r, events) := SettledBy(w, owned, expected, last, s);
            Settles(owner, owned, expected.backend, last, w, w', r, events)
  {
  }

  /** No attempt detaches a builder that it neither owns nor has made, and it
      publishes only what it verified between two equal backend readings. */
  lemma AttemptIsSafe(owner: Ownership, w: World, owned: Option<Metadata>, setup: Setup, last: bool, s: AttemptScript)
    ensures var (w', r, events) := AttemptedBy(owner, w, owned, setup, last, s);
            Attempts(owner, owned, last, w, w', events, r)
  {
    var backend := BackendOf(s.backend);
    if backend.Some? {
      Begun(backend.value, [], owned.Some?);
      assert [Locked(backend.value)] + [] == [Locked(backend.value)];
      var image := ImageOf(backend.value, s);
      if image.Resolved? {
        var expected := Expected(owner, setup, backend.value, image.id);
        var (w1, ok, prepared) := PreparedBy(w, owned, expected, s);
        PreparedIsOwn(w, owned, expected, s);
        if ok {
          var settled := SettledBy(w1, owned, expected, last, s).2;
          SettledSettles(owner, w1, owned, expected, last, s);
          Composed(backend.value, prepared, settled, owned.Some?);
        } else {
          Begun(backend.value, prepared, owned.Some?);
        }
      }
    }
  }
}
