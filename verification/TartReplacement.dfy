/** Replacing the configured Tart image: a copy of the previous image is kept
    under a rollback name while the candidate takes over the output name. A
    script says of every provider and catalog call whether it works, fails or
    loses the process, the latter two with or without its effect. */
module TartReplacement {
  import opened Wrappers

  // ------------------------------------------------------------------- names

  function Lower(c: char): char {
    if 'A' <= c <= 'Z' then c - 'A' + 'a' else c
  }

  /** Lower case, without ':' and '-'. */
  function Identity(id: string): string {
    if id == "" then ""
    else (if id[0] in ":-" then "" else [Lower(id[0])]) + Identity(id[1..])
  }

  function BuildName(output: string, manifestHash: string): string {
    output + "-epar-build-" + if |manifestHash| > 12 then manifestHash[..12] else manifestHash
  }

  function BackupName(output: string, providerId: string): string {
    var id := Identity(providerId);
    output + "-epar-previous-" + if |id| > 12 then id[|id| - 12..] else id
  }

  lemma NamesAreDistinct(output: string, manifestHash: string, providerId: string)
    ensures output != BuildName(output, manifestHash)
    ensures output != BackupName(output, providerId)
    ensures BuildName(output, manifestHash) != BackupName(output, providerId)
  {
    assert |BuildName(output, manifestHash)| > |output| && |BackupName(output, providerId)| > |output|;
    assert BuildName(output, manifestHash)[|output| + 6] == 'b';
    assert BackupName(output, providerId)[|output| + 6] == 'p';
  }

  // ------------------------------------------------------------------- state

  datatype Image = Image(id: string, content: int, running: bool)

  datatype Ref = Ref(config: string, role: string)

  const STAGING := "tart-staging"

  /** A Tart image in the host catalog; `rollback` tells a rollback image from a
      build candidate. */
  datatype Record = Record(locator: string, identity: string, rollback: bool, staging: bool, references: set<Ref>)

  /** Provider images by name, and the catalog records of Tart images. */
  datatype World = World(images: map<string, Image>, records: seq<Record>)

  datatype Names = Names(output: string, build: string, backup: string)

  ghost predicate Distinct(n: Names) {
    n.output != n.build && n.output != n.backup && n.build != n.backup
  }

  function NamesOf(output: string, manifestHash: string, previous: Option<Image>): Names {
    Names(output, BuildName(output, manifestHash), BackupName(output, if previous.Some? then previous.value.id else ""))
  }

  /** A record replaces the one of the same identity, or is added. */
  function Upsert(records: seq<Record>, r: Record): seq<Record> {
    if records == [] then [r]
    else if records[0].identity == r.identity then [r] + records[1..]
    else [records[0]] + Upsert(records[1..], r)
  }

  function RollbackRecord(config: string, name: string, id: string): Record {
    Record(name, id, true, true, {Ref(config, STAGING)})
  }

  datatype Result =
    | Replaced
    | Refused            // an error before the candidate was cloned
    | PreviousRestored
    | RollbackFailed
    | CandidateKept      // no previous image: the candidate stays under its build name
    | ProcessLost

  // ------------------------------------------------------------------- scripts

  /** A clone: its new identity, and the content it has if it was torn. */
  datatype CloneCall = CloneCall(fault: Fault, id: string, torn: Option<int>)

  datatype RestoreScript = RestoreScript(list: Fault, stop: Fault, delete: Fault, clone: CloneCall, read: Fault)

  datatype ReplaceScript = ReplaceScript(list: Fault, toBackup: CloneCall, readBackup: Fault, recordList: Fault, record: Fault,
                                         undo: Fault, stop: Fault, free: Fault, toOutput: CloneCall, readOutput: Fault,
                                         restore: RestoreScript, dropBackup: Fault, dropBuild: Fault)

  /** An interrupted clone leaves a whole copy or nothing. */
  predicate Whole(s: ReplaceScript) {
    s.toBackup.torn.None? && s.toOutput.torn.None? && s.restore.clone.torn.None?
  }

  // ---------------------------------------------------- one operation at a time

  function Cloned(w: World, source: string, name: string, c: CloneCall): (World, Outcome) {
    if source !in w.images then (w, Failed)
    else
      var content := if c.fault.Works? || c.torn.None? then w.images[source].content else c.torn.value;
      (if Lands(c.fault) then w.(images := w.images[name := Image(c.id, content, false)]) else w, End(c.fault))
  }

  function Deleted(w: World, name: string, f: Fault): World {
    if Lands(f) then w.(images := w.images - {name}) else w
  }

  function Stopped(w: World, name: string, f: Fault): (World, Outcome) {
    if name !in w.images then (w, Failed)
    else (if Lands(f) then w.(images := w.images[name := w.images[name].(running := false)]) else w, End(f))
  }

  predicate Identified(w: World, name: string) {
    name in w.images && w.images[name].id != ""
  }

  /** Lists the images and looks for one with an identity. */
  function ReadBack(w: World, name: string, f: Fault): Outcome {
    if f.Works? && !Identified(w, name) then Failed else End(f)
  }

  /** Records an exact rollback image for startup. */
  function Recorded(config: string, w: World, name: string, list: Fault, write: Fault): (World, Outcome) {
    if !list.Works? then (w, End(list))
    else if !Identified(w, name) then (w, Failed)
    else
      (if Lands(write) then w.(records := Upsert(w.records, RollbackRecord(config, name, w.images[name].id))) else w, End(write))
  }

  // --------------------------------------------------------------- replacement

  /** Copies the output image to its rollback name and frees the output name. */
  function SetAsideBy(config: string, w: World, n: Names, running: bool, s: ReplaceScript): (World, Outcome) {
    var (w1, o1) := Cloned(w, n.output, n.backup, s.toBackup);
    if !o1.Done? then (w1, o1)
    else
      var o2 := ReadBack(w1, n.backup, s.readBackup);
      if !o2.Done? then (w1, o2)
      else
        var (w2, o3) := Recorded(config, w1, n.backup, s.recordList, s.record);
        match o3
        case Crashed => (w2, Crashed)
        case Failed => (Deleted(w2, n.backup, s.undo), if End(s.undo).Crashed? then Crashed else Failed)
        case Done => FreedBy(w2, n, running, s)
  }

  function FreedBy(w: World, n: Names, running: bool, s: ReplaceScript): (World, Outcome) {
    var (w1, o) := if running then Stopped(w, n.output, s.stop) else (w, Done);
    if !o.Done? then (w1, o) else (Deleted(w1, n.output, s.free), End(s.free))
  }

  function RestoredBy(w: World, n: Names, s: RestoreScript): (World, Outcome) {
    if !s.list.Works? then (w, End(s.list))
    else if n.output !in w.images then ClonedBack(w, n, s)
    else
      var (w1, o) := if w.images[n.output].running then Stopped(w, n.output, s.stop) else (w, Done);
      if !o.Done? then (w1, o)
      else if !s.delete.Works? then (Deleted(w1, n.output, s.delete), End(s.delete))
      else ClonedBack(Deleted(w1, n.output, s.delete), n, s)
  }

  function ClonedBack(w: World, n: Names, s: RestoreScript): (World, Outcome) {
    var (w1, o) := Cloned(w, n.backup, n.output, s.clone);
    (w1, if o.Done? then ReadBack(w1, n.output, s.read) else o)
  }

  /** The candidate takes the free output name; if it does not arrive there
      whole, the previous image is restored from its rollback name. The flag
      says that the candidate was read back. */
  function PutBy(w: World, n: Names, replacing: bool, s: ReplaceScript): (World, Result, bool) {
    var (w1, o1) := Cloned(w, n.build, n.output, s.toOutput);
    match if o1.Done? then ReadBack(w1, n.output, s.readOutput) else o1
    case Done => CleanedBy(w1, n, replacing, s)
    case Crashed => (w1, ProcessLost, false)
    case Failed =>
      if !replacing then (w1, CandidateKept, false)
      else
        var (w2, o2) := RestoredBy(w1, n, s.restore);
        (w2, match o2 case Done => PreviousRestored case Failed => RollbackFailed case Crashed => ProcessLost, false)
  }

  function CleanedBy(w: World, n: Names, replacing: bool, s: ReplaceScript): (World, Result, bool) {
    var w1 := if replacing then Deleted(w, n.backup, s.dropBackup) else w;
    if replacing && End(s.dropBackup).Crashed? then (w1, ProcessLost, true)
    else (Deleted(w1, n.build, s.dropBuild), if End(s.dropBuild).Crashed? then ProcessLost else Replaced, true)
  }

  /** The candidate has an identity, the output is the one seen before the build,
      and its rollback name is free. */
  predicate Ready(w: World, n: Names, previous: Option<Image>) {
    && Identified(w, n.build)
    && (n.output in w.images <==> previous.Some?)
    && (previous.Some? ==> previous.value.id != "" && w.images[n.output].id == previous.value.id && n.backup !in w.images)
  }

  function ReplacedBy(config: string, w: World, n: Names, previous: Option<Image>, s: ReplaceScript): (World, Result, bool) {
    if !s.list.Works? then (w, if End(s.list).Crashed? then ProcessLost else Refused, false)
    else if !Ready(w, n, previous) then (w, Refused, false)
    else if previous.None? then PutBy(w, n, false, s)
    else
      var (w1, o) := SetAsideBy(config, w, n, previous.value.running, s);
      if o.Done? then PutBy(w1, n, true, s) else (w1, if o.Crashed? then ProcessLost else Refused, false)
  }

  // ------------------------------------------------- what a replacement leaves

  ghost predicate Holds(w: World, name: string, content: int) {
    name in w.images && w.images[name].content == content
  }

  ghost predicate OnlyTouches(names: set<string>, w: World, w': World) {
    forall n | n !in names :: (n in w.images <==> n in w'.images) && (n in w.images ==> w'.images[n] == w.images[n])
  }

  /** The previous image stands under the output name, or a copy of it under the
      rollback name with its record, and the output name is never free otherwise. */
  ghost predicate Kept(config: string, n: Names, w: World, w': World)
    requires n.output in w.images
  {
    || (Holds(w', n.output, w.images[n.output].content) && w'.records == w.records)
    || SetAside(config, n, w, w')
    || (Holds(w', n.output, w.images[n.output].content) && exists r :: w'.records == Upsert(w.records, r))
  }

  ghost predicate SetAside(config: string, n: Names, w: World, w': World)
    requires n.output in w.images
  {
    && Holds(w', n.backup, w.images[n.output].content) && Identified(w', n.backup)
    && w'.records == Upsert(w.records, RollbackRecord(config, n.backup, w'.images[n.backup].id))
  }

  /** Whatever stands under a touched name came whole from one of the images. */
  ghost predicate FromWhole(n: Names, w: World, w': World) {
    n.output in w'.images ==>
      || Holds(w, n.output, w'.images[n.output].content)
      || Holds(w, n.build, w'.images[n.output].content)
      || Holds(w, n.backup, w'.images[n.output].content)
  }

  lemma FreedKeeps(w: World, n: Names, running: bool, s: ReplaceScript)
    requires Distinct(n) && n.output in w.images
    ensures var (w', o) := FreedBy(w, n, running, s);
            && OnlyTouches({n.output}, w, w') && w'.records == w.records
            && (n.output in w'.images ==> w'.images[n.output].content == w.images[n.output].content)
            && (o.Done? ==> n.output !in w'.images)
  {
  }

  lemma SetAsideKeeps(config: string, w: World, n: Names, running: bool, s: ReplaceScript)
    requires Distinct(n) && n.output in w.images && n.backup !in w.images
    ensures var (w', o) := SetAsideBy(config, w, n, running, s);
            && OnlyTouches({n.output, n.backup}, w, w') && Kept(config, n, w, w')
            && (n.output in w'.images ==> w'.images[n.output].content == w.images[n.output].content)
            && (n.output !in w'.images ==> SetAside(config, n, w, w'))
            && (o.Done? ==> n.output !in w'.images)
  {
    var (w1, o1) := Cloned(w, n.output, n.backup, s.toBackup);
    if o1.Done? && ReadBack(w1, n.backup, s.readBackup).Done? {
      var (w2, o3) := Recorded(config, w1, n.backup, s.recordList, s.record);
      if o3.Done? {
        FreedKeeps(w2, n, running, s);
      }
    }
  }

  lemma RestoreRestores(w: World, n: Names, s: RestoreScript)
    requires Distinct(n) && n.backup in w.images
    ensures var (w', o) := RestoredBy(w, n, s);
            && OnlyTouches({n.output}, w, w') && w'.records == w.records
            && (o.Done? ==> Holds(w', n.output, w.images[n.backup].content) && Identified(w', n.output))
            && (s.clone.torn.None? && n.output in w'.images ==>
                  Holds(w, n.output, w'.images[n.output].content) || Holds(w, n.backup, w'.images[n.output].content))
  {
  }

  lemma PutPlaces(w: World, n: Names, replacing: bool, s: ReplaceScript)
    requires Distinct(n) && n.build in w.images && n.output !in w.images && (replacing ==> n.backup in w.images)
    ensures var (w', r, readBack) := PutBy(w, n, replacing, s);
            && OnlyTouches(if readBack then {n.output, n.build, n.backup} else {n.output}, w, w') && w'.records == w.records
            && (r.Replaced? ==> readBack) && !r.Refused?
            && (r.PreviousRestored? || r.RollbackFailed? ==> !readBack && replacing) && (r.CandidateKept? ==> !readBack && !replacing)
            && (readBack ==> Holds(w', n.output, w.images[n.build].content) && Identified(w', n.output))
            && (r.PreviousRestored? ==> Holds(w', n.output, w.images[n.backup].content) && Identified(w', n.output))
            && (Whole(s) ==> FromWhole(n, w, w'))
  {
    if replacing {
      RestoreRestores(Cloned(w, n.build, n.output, s.toOutput).0, n, s.restore);
    }
  }

  /** A replacement, cut at any point, touches the three names only. Until the
      candidate was read back under the output name it survives under its build
      name, and the previous content stands under the output name or, recorded
      for startup, under the rollback name. A reported restore did restore it. */
  lemma ReplacementKeeps(config: string, w: World, n: Names, previous: Option<Image>, s: ReplaceScript)
    requires Distinct(n)
    ensures var (w', r, readBack) := ReplacedBy(config, w, n, previous, s);
            && OnlyTouches({n.output, n.build, n.backup}, w, w')
            && (r.Replaced? ==> readBack) && (r.PreviousRestored? || r.RollbackFailed? || r.CandidateKept? || r.Refused? ==> !readBack)
            && (readBack ==> Identified(w, n.build) && Holds(w', n.output, w.images[n.build].content) && Identified(w', n.output))
            && (!readBack && n.build in w.images ==> n.build in w'.images && w'.images[n.build] == w.images[n.build])
            && (!readBack && n.output in w.images ==> Kept(config, n, w, w'))
            && (n.output in w.images && n.output !in w'.images ==> SetAside(config, n, w, w'))
            && (r.PreviousRestored? ==> n.output in w.images && Holds(w', n.output, w.images[n.output].content) && Identified(w', n.output))
            && (r.CandidateKept? ==> n.output !in w.images)
            && (Whole(s) && n.output in w.images && n.output in w'.images ==>
                  Holds(w, n.output, w'.images[n.output].content) || Holds(w, n.build, w'.images[n.output].content))
  {
    if s.list.Works? && Ready(w, n, previous) {
      if previous.None? {
        PutPlaces(w, n, false, s);
      } else {
        SetAsideKeeps(config, w, n, previous.value.running, s);
        var (w1, o) := SetAsideBy(config, w, n, previous.value.running, s);
        if o.Done? { PutPlaces(w1, n, true, s); }
      }
    }
  }
}
