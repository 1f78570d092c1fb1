/** Startup after an interrupted replacement: which image comes back. */
module TartRecovery {
  import opened Wrappers
  import opened TartReplacement

  // ------------------------------------------------------------------- startup

  predicate Mine(config: string, r: Record) {
    r.staging && Ref(config, STAGING) in r.references
  }

  /** A rollback image of this configuration that still has its identity. */
  predicate Exact(config: string, images: map<string, Image>, r: Record) {
    Mine(config, r) && r.rollback && r.locator in images && images[r.locator].id == r.identity
  }

  function FirstExact(config: string, images: map<string, Image>, records: seq<Record>): Option<Record> {
    if records == [] then None
    else if Exact(config, images, records[0]) then Some(records[0])
    else FirstExact(config, images, records[1..])
  }

  function GiveUp(config: string, r: Record): Record {
    if Mine(config, r) then
      var rest := r.references - {Ref(config, STAGING)};
      r.(references := rest, staging := rest != {})
    else r
  }

  function GivenUp(config: string, records: seq<Record>): seq<Record> {
    seq(|records|, i requires 0 <= i < |records| => GiveUp(config, records[i]))
  }

  /** `admitted` stands for taking the lock and loading the catalog. */
  datatype StartScript = StartScript(admitted: Outcome, list: Fault, clone: CloneCall, read: Fault, write: Fault)

  function ReleasedBy(config: string, w: World, f: Fault): (World, Outcome) {
    (if Lands(f) then w.(records := GivenUp(config, w.records)) else w, End(f))
  }

  function StartedBy(config: string, output: string, w: World, s: StartScript): (World, Outcome) {
    if !s.admitted.Done? then (w, s.admitted)
    else if forall r | r in w.records :: !Mine(config, r) then (w, Done)
    else if !s.list.Works? then (w, End(s.list))
    else if output in w.images then ReleasedBy(config, w, s.write)
    else
      match FirstExact(config, w.images, w.records)
      case None => (w, Failed)
      case Some(r) =>
        var (w1, o) := Cloned(w, r.locator, output, s.clone);
        if !o.Done? then (w1, o)
        else if !ReadBack(w1, output, s.read).Done? then (w1, ReadBack(w1, output, s.read))
        else ReleasedBy(config, w1, s.write)
  }

  lemma {:induction false} FirstExactIsExact(config: string, images: map<string, Image>, records: seq<Record>)
    ensures match FirstExact(config, images, records)
            case Some(r) => r in records && Exact(config, images, r)
            case None => forall r | r in records :: !Exact(config, images, r)
  {
    if records != [] && !Exact(config, images, records[0]) {
      FirstExactIsExact(config, images, records[1..]);
      assert records == [records[0]] + records[1..];
    }
  }

  /** Startup gives up the references of its own configuration only: every other
      one stays, and every other configuration still finds its rollback image. */
  lemma {:induction false} OthersKeepTheirRecords(config: string, other: string, images: map<string, Image>, records: seq<Record>)
    requires config != other
    ensures forall i | 0 <= i < |records| ::
              GivenUp(config, records)[i].references == (if records[i].staging then records[i].references - {Ref(config, STAGING)} else records[i].references)
              && (Mine(other, records[i]) <==> Mine(other, GivenUp(config, records)[i]))
              && !Mine(config, GivenUp(config, records)[i])
    ensures FirstExact(other, images, GivenUp(config, records)).Some? <==> FirstExact(other, images, records).Some?
    ensures FirstExact(other, images, records).Some? ==>
              FirstExact(other, images, GivenUp(config, records)).value.locator == FirstExact(other, images, records).value.locator
  {
    forall i | 0 <= i < |records|
      ensures Mine(other, records[i]) <==> Mine(other, GivenUp(config, records)[i])
    {
      if Mine(other, records[i]) { assert Ref(other, STAGING) in records[i].references - {Ref(config, STAGING)}; }
    }
    if records != [] {
      assert GivenUp(config, records)[1..] == GivenUp(config, records[1..]);
      assert Exact(other, images, GivenUp(config, records)[0]) <==> Exact(other, images, records[0]);
      OthersKeepTheirRecords(config, other, images, records[1..]);
    }
  }

  // -------------------------------------------------------- what startup decides

  /** The output name carries one of these contents. */
  ghost predicate Carries(output: string, good: set<int>, w: World) {
    output in w.images && w.images[output].content in good
  }

  /** The first exact rollback image has one of these contents. */
  ghost predicate CanRestore(config: string, good: set<int>, w: World) {
    var r := FirstExact(config, w.images, w.records);
    r.Some? && r.value.locator in w.images && w.images[r.value.locator].content in good
  }

  ghost predicate Recoverable(config: string, output: string, good: set<int>, w: World) {
    if output in w.images then Carries(output, good, w) else CanRestore(config, good, w)
  }

  /** Whatever clones were torn before: a startup that has records and ends puts
      one of these contents under the output name exactly if the name already
      carried one, or was free and the first exact rollback image has one. */
  lemma LastStartupDecides(config: string, output: string, good: set<int>, w: World, s: StartScript)
    requires (exists r | r in w.records :: Mine(config, r)) && StartedBy(config, output, w, s).1.Done?
    ensures Carries(output, good, StartedBy(config, output, w, s).0) <==> Recoverable(config, output, good, w)
    ensures output in StartedBy(config, output, w, s).0.images
    ensures forall r | r in StartedBy(config, output, w, s).0.records :: !Mine(config, r)
  {
    FirstExactIsExact(config, w.images, w.records);
  }

  /** A startup that clones whole or not at all keeps what can be recovered. */
  lemma StartupKeeps(config: string, output: string, good: set<int>, w: World, s: StartScript)
    requires Recoverable(config, output, good, w) && s.clone.torn.None?
    ensures Recoverable(config, output, good, StartedBy(config, output, w, s).0)
    ensures StartedBy(config, output, w, s).1.Done? ==> Carries(output, good, StartedBy(config, output, w, s).0)
  {
    FirstExactIsExact(config, w.images, w.records);
  }

  // ------------------------------------------------- replacement, then startups

  /** Startups one after another; the processes before the last one were cut. */
  function Started(config: string, output: string, w: World, starts: seq<StartScript>): (World, Outcome)
    requires starts != []
    decreases |starts|
  {
    var (w1, o) := StartedBy(config, output, w, starts[0]);
    if |starts| == 1 then (w1, o) else Started(config, output, w1, starts[1..])
  }

  lemma {:induction false} StartupsKeep(config: string, output: string, good: set<int>, w: World, starts: seq<StartScript>)
    requires Recoverable(config, output, good, w) && starts != [] && forall s | s in starts :: s.clone.torn.None?
    ensures Started(config, output, w, starts).1.Done? ==> Carries(output, good, Started(config, output, w, starts).0)
    decreases |starts|
  {
    StartupKeeps(config, output, good, w, starts[0]);
    if |starts| > 1 {
      StartupsKeep(config, output, good, StartedBy(config, output, w, starts[0]).0, starts[1..]);
    }
  }

  /** The images are the same except under these names, and a new record was
      made: the first exact rollback image is the recorded one or the old one. */
  lemma {:induction false} FirstExactAfter(config: string, names: set<string>, w: World, images: map<string, Image>,
                                           records: seq<Record>, r: Record)
    requires OnlyTouches(names, w, World(images, w.records)) && Exact(config, images, r)
    requires forall h | h in records && Exact(config, w.images, h) :: h.locator !in names
    requires forall h | h in records && Mine(config, h) && h.rollback && h.identity != r.identity ::
               h.locator !in names || (h.locator == r.locator && r.locator !in w.images)
    ensures var first := FirstExact(config, images, Upsert(records, r));
            first == Some(r) || (first.Some? && first == FirstExact(config, w.images, records))
  {
    if records != [] && records[0].identity != r.identity {
      var h := records[0];
      assert Exact(config, images, h) <==> Exact(config, w.images, h);
      assert Upsert(records, r)[1..] == Upsert(records[1..], r);
      if !Exact(config, images, h) { FirstExactAfter(config, names, w, images, records[1..], r); }
    }
  }

  /** No rollback record of this configuration names the output or the build. */
  ghost predicate Clear(config: string, n: Names, w: World) {
    forall r | r in w.records && Mine(config, r) && r.rollback :: r.locator != n.output && r.locator != n.build
  }

  /** An earlier rollback image that is still exact has a wanted content. */
  ghost predicate EarlierIsGood(config: string, good: set<int>, w: World) {
    FirstExact(config, w.images, w.records).Some? ==> CanRestore(config, good, w)
  }

  lemma ReplacementIsRecoverable(config: string, w: World, n: Names, previous: Option<Image>, s: ReplaceScript)
    requires Distinct(n) && Clear(config, n, w) && Ready(w, n, previous) && previous.Some? && Whole(s)
    requires EarlierIsGood(config, {w.images[n.output].content, w.images[n.build].content}, w)
    ensures Recoverable(config, n.output, {w.images[n.output].content, w.images[n.build].content}, ReplacedBy(config, w, n, previous, s).0)
  {
    ReplacementKeeps(config, w, n, previous, s);
    var w' := ReplacedBy(config, w, n, previous, s).0;
    if n.output !in w'.images {
      var r := RollbackRecord(config, n.backup, w'.images[n.backup].id);
      FirstExactIsExact(config, w.images, w.records);
      assert Exact(config, w'.images, r);
      FirstExactAfter(config, {n.output, n.build, n.backup}, w, w'.images, w.records, r);
    }
  }

  /** However a replacement with whole clones is cut, and however often startup
      is, the startup that ends puts the previous or the candidate image under
      the output name. */
  ghost predicate OutputComesBack(config: string, w: World, n: Names, previous: Option<Image>)
    requires n.output in w.images && n.build in w.images
  {
    forall s: ReplaceScript, starts: seq<StartScript> |
      Whole(s) && starts != [] && (forall start | start in starts :: start.clone.torn.None?)
      && Started(config, n.output, ReplacedBy(config, w, n, previous, s).0, starts).1.Done? ::
      Carries(n.output, {w.images[n.output].content, w.images[n.build].content},
              Started(config, n.output, ReplacedBy(config, w, n, previous, s).0, starts).0)
  }

  /** It does exactly if the first rollback image that is still exact before the
      replacement, left by an earlier one, has one of these contents, or there is
      none. */
  lemma OutputComesBackExactly(config: string, w: World, n: Names, previous: Option<Image>)
    requires Distinct(n) && Clear(config, n, w) && Ready(w, n, previous) && previous.Some?
    ensures OutputComesBack(config, w, n, previous)
            <==> EarlierIsGood(config, {w.images[n.output].content, w.images[n.build].content}, w)
  {
    var good := {w.images[n.output].content, w.images[n.build].content};
    if EarlierIsGood(config, good, w) {
      forall s: ReplaceScript, starts: seq<StartScript> |
        Whole(s) && starts != [] && (forall start | start in starts :: start.clone.torn.None?)
        && Started(config, n.output, ReplacedBy(config, w, n, previous, s).0, starts).1.Done?
        ensures Carries(n.output, good, Started(config, n.output, ReplacedBy(config, w, n, previous, s).0, starts).0)
      {
        ReplacementIsRecoverable(config, w, n, previous, s);
        StartupsKeep(config, n.output, good, ReplacedBy(config, w, n, previous, s).0, starts);
      }
    } else {
      var s, start := EarlierImageComesBack(config, w, n, previous);
      var w' := ReplacedBy(config, w, n, previous, s).0;
      assert Started(config, n.output, w', [start]) == StartedBy(config, n.output, w', start);
    }
  }

  /** All goes well until the output name is free; then the process is lost. */
  function CutWhenFree(id: string): ReplaceScript {
    var clone := CloneCall(Works, id, None);
    ReplaceScript(Works, clone, Works, Works, Works, Works, Works, CrashesLate, clone, Works,
                  RestoreScript(Works, Works, Works, clone, Works), Works, Works)
  }

  const CALM_START := StartScript(Done, Works, CloneCall(Works, "restored", None), Works, Works)

  /** A new image gets an identity that no record has. */
  lemma {:induction false} FreshIdentity(records: seq<Record>) returns (id: string)
    ensures id != "" && forall r | r in records :: |r.identity| < |id|
  {
    if records == [] {
      id := "1";
    } else {
      var rest := FreshIdentity(records[1..]);
      id := rest + records[0].identity;
      assert records == [records[0]] + records[1..];
    }
  }

  lemma {:induction false} FirstExactStays(config: string, w: World, images: map<string, Image>, records: seq<Record>, r: Record, names: set<string>)
    requires OnlyTouches(names, w, World(images, w.records)) && FirstExact(config, w.images, records).Some?
    requires forall h | h in records :: h.identity != r.identity
    requires forall h | h in records && Mine(config, h) && h.rollback ::
               h.locator !in names || (h.locator !in w.images && h.locator in images && images[h.locator].id == r.identity)
    ensures FirstExact(config, images, Upsert(records, r)) == FirstExact(config, w.images, records)
  {
    var h := records[0];
    assert Exact(config, images, h) <==> Exact(config, w.images, h);
    assert Upsert(records, r)[1..] == Upsert(records[1..], r);
    if !Exact(config, images, h) { FirstExactStays(config, w, images, records[1..], r, names); }
  }

  /** The world in which the process was lost. */
  lemma CutLeavesFree(config: string, w: World, n: Names, previous: Option<Image>, id: string)
    requires Distinct(n) && Ready(w, n, previous) && previous.Some? && id != ""
    ensures var w' := ReplacedBy(config, w, n, previous, CutWhenFree(id)).0;
            && n.output !in w'.images && OnlyTouches({n.output, n.backup}, w, w')
            && n.backup in w'.images && w'.images[n.backup].id == id
            && w'.records == Upsert(w.records, RollbackRecord(config, n.backup, id))
  {
  }

  /** Otherwise a replacement that is cut brings back that earlier image. */
  lemma EarlierImageComesBack(config: string, w: World, n: Names, previous: Option<Image>) returns (s: ReplaceScript, start: StartScript)
    requires Distinct(n) && Clear(config, n, w) && Ready(w, n, previous) && previous.Some?
    requires FirstExact(config, w.images, w.records).Some?
    ensures Whole(s) && start.clone.torn.None?
    ensures var earlier := FirstExact(config, w.images, w.records).value.locator;
            var (end, o) := StartedBy(config, n.output, ReplacedBy(config, w, n, previous, s).0, start);
            o.Done? && earlier in w.images && Holds(end, n.output, w.images[earlier].content)
  {
    var id := FreshIdentity(w.records);
    s, start := CutWhenFree(id), CALM_START;
    CutLeavesFree(config, w, n, previous, id);
    var w' := ReplacedBy(config, w, n, previous, s).0;
    FirstExactIsExact(config, w.images, w.records);
    FirstExactStays(config, w, w'.images, w.records, RollbackRecord(config, n.backup, id), {n.output, n.backup});
    FirstExactIsExact(config, w'.images, w'.records);
  }

  /** The candidate's clone is torn by a crash after it got a name and an identity. */
  function TornAtOutput(id: string, torn: int): ReplaceScript {
    CutWhenFree(id).(free := Works, toOutput := CloneCall(CrashesLate, "torn", Some(torn)))
  }

  /** Startup takes whatever carries the output name: any torn content can become
      the output image, and the record of the previous one is given up. */
  lemma TornCloneIsAccepted(config: string, w: World, n: Names, previous: Option<Image>, torn: int)
    requires Distinct(n) && Ready(w, n, previous) && previous.Some?
    ensures var cut := ReplacedBy(config, w, n, previous, TornAtOutput("rollback", torn)).0;
            var (end, o) := StartedBy(config, n.output, cut, CALM_START);
            && Holds(cut, n.backup, w.images[n.output].content)
            && o.Done? && Holds(end, n.output, torn) && (forall r | r in end.records :: !Mine(config, r))
  {
    var cut := ReplacedBy(config, w, n, previous, TornAtOutput("rollback", torn)).0;
    UpsertAdds(w.records, RollbackRecord(config, n.backup, "rollback"));
    assert Mine(config, RollbackRecord(config, n.backup, "rollback"));
    assert cut.records == Upsert(w.records, RollbackRecord(config, n.backup, "rollback"));
    LastStartupDecides(config, n.output, {torn}, cut, CALM_START);
  }

  lemma {:induction false} UpsertAdds(records: seq<Record>, r: Record)
    ensures r in Upsert(records, r)
  {
    if records != [] && records[0].identity != r.identity {
      UpsertAdds(records[1..], r);
    }
  }
}
