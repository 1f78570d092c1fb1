/** What a replacement, a restore and a startup come to, told from the images they
    find and the calls that work. */
module TartEnds {
  import opened Wrappers
  import opened TartReplacement
  import opened TartRecovery

  predicate Loses(f: Fault) {
    f.Crashes? || f.CrashesLate?
  }

  /** A clone that works and gets an identity. */
  predicate Clones(c: CloneCall) {
    c.fault.Works? && c.id != ""
  }

  // ------------------------------------------------------------------ restore

  /** What a restore needs: every call that it makes, the first ones only for an
      image under the output name. */
  predicate RestoreWorks(w: World, n: Names, s: RestoreScript) {
    && s.list.Works? && Clones(s.clone) && s.read.Works?
    && (n.output in w.images ==> s.delete.Works? && (w.images[n.output].running ==> s.stop.Works?))
  }

  /** A restore ends exactly if it has that, and then puts a copy of the rollback
      image under the output name and changes nothing else. */
  lemma RestoreEndsExactly(w: World, n: Names, s: RestoreScript)
    requires Distinct(n) && n.backup in w.images
    ensures var (w', o) := RestoredBy(w, n, s);
            && (o.Done? <==> RestoreWorks(w, n, s))
            && (o.Done? ==> w' == w.(images := w.images[n.output := Image(s.clone.id, w.images[n.backup].content, false)]))
  {
  }

  // -------------------------------------------------------------- replacement

  /** The previous image is copied, read back, recorded and taken off its name. */
  predicate SetsAside(running: bool, s: ReplaceScript) {
    && Clones(s.toBackup) && s.readBackup.Works? && s.recordList.Works? && s.record.Works?
    && (running ==> s.stop.Works?) && s.free.Works?
  }

  /** A copy of the previous image that cannot be recorded is deleted again. */
  lemma UnrecordedCopyIsDropped(config: string, w: World, n: Names, running: bool, s: ReplaceScript)
    requires Distinct(n) && n.output in w.images && Clones(s.toBackup) && s.readBackup.Works?
    requires End(s.recordList).Failed? || (s.recordList.Works? && End(s.record).Failed?)
    ensures var (w', o) := SetAsideBy(config, w, n, running, s);
            !o.Done? && n.output in w'.images && (n.backup in w'.images <==> !Lands(s.undo))
  {
  }

  /** The candidate is copied to the output name and read back there. */
  predicate Puts(s: ReplaceScript) {
    Clones(s.toOutput) && s.readOutput.Works?
  }

  /** The output name is free for the candidate. */
  predicate Begins(w: World, n: Names, previous: Option<Image>, s: ReplaceScript) {
    s.list.Works? && Ready(w, n, previous) && (previous.Some? ==> SetsAside(previous.value.running, s))
  }

  lemma SetAsideExactly(config: string, w: World, n: Names, running: bool, s: ReplaceScript)
    requires Distinct(n) && n.output in w.images
    ensures var (w', o) := SetAsideBy(config, w, n, running, s);
            && (o.Done? <==> SetsAside(running, s))
            && (o.Done? ==> w' == World(w.images[n.backup := Image(s.toBackup.id, w.images[n.output].content, false)] - {n.output},
                                        Upsert(w.records, RollbackRecord(config, n.backup, s.toBackup.id))))
  {
    var (w1, o1) := Cloned(w, n.output, n.backup, s.toBackup);
    if SetsAside(running, s) {
      var w2 := Recorded(config, w1, n.backup, s.recordList, s.record).0;
      assert FreedBy(w2, n, running, s).0.images == w1.images - {n.output};
    }
  }

  /** The images after a replacement: the candidate under the output name, and its
      build and the rollback image away as far as they could be deleted. */
  function Cleaned(images: map<string, Image>, n: Names, replacing: bool, s: ReplaceScript): map<string, Image>
    requires n.build in images
  {
    images[n.output := Image(s.toOutput.id, images[n.build].content, false)]
    - (if replacing && Lands(s.dropBackup) then {n.backup} else {}) - (if Lands(s.dropBuild) then {n.build} else {})
  }

  lemma PutExactly(w: World, n: Names, replacing: bool, s: ReplaceScript)
    requires Distinct(n) && n.build in w.images && n.output !in w.images && (replacing ==> n.backup in w.images)
    ensures var (w', r, readBack) := PutBy(w, n, replacing, s);
            && (readBack <==> Puts(s))
            && (r.Replaced? <==> Puts(s) && (replacing ==> !Loses(s.dropBackup)) && !Loses(s.dropBuild))
            && (r.Replaced? ==> w'.images == Cleaned(w.images, n, replacing, s) && w'.records == w.records)
    ensures !Puts(s) && !Loses(s.toOutput.fault) && !Loses(s.readOutput) ==>
              var (r, w1) := (PutBy(w, n, replacing, s).1, Cloned(w, n.build, n.output, s.toOutput).0);
              if !replacing then r.CandidateKept?
              else r.PreviousRestored? <==> RestoreWorks(w1, n, s.restore)
  {
    if replacing {
      RestoreEndsExactly(Cloned(w, n.build, n.output, s.toOutput).0, n, s.restore);
    }
  }

  /** However its calls go: the candidate is read back under the output name
      exactly if the replacement began and the clone to the output was made and
      read back; it is reported as replaced exactly if, in addition, the process
      is not lost while cleaning up. The output then holds the build's content,
      and build and rollback image are gone as far as their deletion took effect. */
  lemma ReplacementEndsExactly(config: string, w: World, n: Names, previous: Option<Image>, s: ReplaceScript)
    requires Distinct(n)
    ensures var (w', r, readBack) := ReplacedBy(config, w, n, previous, s);
            && (readBack <==> Begins(w, n, previous, s) && Puts(s))
            && (r.Replaced? <==> readBack && (previous.Some? ==> !Loses(s.dropBackup)) && !Loses(s.dropBuild))
            && (r.Replaced? ==>
                  && n.build in w.images && n.output in w'.images
                  && w'.images[n.output] == Image(s.toOutput.id, w.images[n.build].content, false)
                  && (n.build in w'.images <==> !Lands(s.dropBuild))
                  && (previous.Some? ==> (n.backup in w'.images <==> !Lands(s.dropBackup))))
  {
    if s.list.Works? && Ready(w, n, previous) {
      if previous.None? {
        PutExactly(w, n, false, s);
      } else {
        SetAsideExactly(config, w, n, previous.value.running, s);
        SetAsideKeeps(config, w, n, previous.value.running, s);
        var (w1, o) := SetAsideBy(config, w, n, previous.value.running, s);
        if o.Done? { PutExactly(w1, n, true, s); }
      }
    }
  }

  /** No call loses the process. */
  predicate Stays(s: ReplaceScript) {
    && !Loses(s.list) && !Loses(s.toBackup.fault) && !Loses(s.readBackup) && !Loses(s.recordList) && !Loses(s.record)
    && !Loses(s.undo) && !Loses(s.stop) && !Loses(s.free) && !Loses(s.toOutput.fault) && !Loses(s.readOutput)
    && !Loses(s.restore.list) && !Loses(s.restore.stop) && !Loses(s.restore.delete) && !Loses(s.restore.clone.fault)
    && !Loses(s.restore.read) && !Loses(s.dropBackup) && !Loses(s.dropBuild)
  }

  /** A replacement that keeps its process is refused exactly if it never comes to
      the candidate's clone. */
  lemma RefusedExactly(config: string, w: World, n: Names, previous: Option<Image>, s: ReplaceScript)
    requires Distinct(n) && Stays(s)
    ensures var r := ReplacedBy(config, w, n, previous, s).1;
            !r.ProcessLost? && (r.Refused? <==> !Begins(w, n, previous, s))
  {
    if s.list.Works? && Ready(w, n, previous) && previous.Some? {
      SetAsideExactly(config, w, n, previous.value.running, s);
      SetAsideKeeps(config, w, n, previous.value.running, s);
    }
  }

  /** A candidate that does not arrive, while no call loses the process: with a
      previous image the answer is that it was restored, exactly if the restore
      had what it needs, and it then stands under the output name again; without
      one the candidate is kept under its build name. */
  lemma FailedCandidateIsTakenBack(config: string, w: World, n: Names, previous: Option<Image>, s: ReplaceScript)
    requires Distinct(n) && Begins(w, n, previous, s) && !Puts(s) && !Loses(s.toOutput.fault) && !Loses(s.readOutput)
    ensures var (w', r, _) := ReplacedBy(config, w, n, previous, s);
            if previous.None? then r.CandidateKept? && n.build in w'.images && w'.images[n.build] == w.images[n.build]
            else
              var torn := Lands(s.toOutput.fault);   // the failed clone left an image, which is not running
              && (r.PreviousRestored? <==> && s.restore.list.Works? && Clones(s.restore.clone) && s.restore.read.Works?
                                           && (torn ==> s.restore.delete.Works?))
              && (r.PreviousRestored? ==> Holds(w', n.output, w.images[n.output].content))
  {
    ReplacementKeeps(config, w, n, previous, s);
    if previous.None? {
      PutExactly(w, n, false, s);
    } else {
      SetAsideExactly(config, w, n, previous.value.running, s);
      var w1 := SetAsideBy(config, w, n, previous.value.running, s).0;
      PutExactly(w1, n, true, s);
    }
  }

  /** A replacement in which every call works, and every clone gets an identity. */
  function CalmReplacement(backup: string, output: string): ReplaceScript {
    ReplaceScript(Works, CloneCall(Works, backup, None), Works, Works, Works, Works, Works, Works, CloneCall(Works, output, None), Works,
                  RestoreScript(Works, Works, Works, CloneCall(Works, backup, None), Works), Works, Works)
  }

  /** It replaces the image whenever it is ready to: the output holds the build's
      content, and neither build nor rollback image is left. */
  lemma ReplacementCanFinish(config: string, w: World, n: Names, previous: Option<Image>, backup: string, output: string)
    requires Distinct(n) && Ready(w, n, previous) && backup != "" && output != ""
    ensures var (w', r, readBack) := ReplacedBy(config, w, n, previous, CalmReplacement(backup, output));
            && r.Replaced? && readBack && Holds(w', n.output, w.images[n.build].content)
            && n.build !in w'.images && (previous.Some? ==> n.backup !in w'.images)
  {
    ReplacementEndsExactly(config, w, n, previous, CalmReplacement(backup, output));
  }

  // ------------------------------------------------------------------ startup

  /** A startup ends exactly if it has nothing of its own to do, or the output
      name is taken or can be filled from an exact rollback image, and its records
      can be given up. */
  lemma StartupEndsExactly(config: string, output: string, w: World, s: StartScript)
    ensures StartedBy(config, output, w, s).1.Done?
            <==> s.admitted.Done?
                 && ((exists r | r in w.records :: Mine(config, r)) ==>
                       && s.list.Works? && s.write.Works?
                       && (output in w.images
                           || ((exists r | r in w.records :: Exact(config, w.images, r)) && Clones(s.clone) && s.read.Works?)))
  {
    FirstExactIsExact(config, w.images, w.records);
  }
}
