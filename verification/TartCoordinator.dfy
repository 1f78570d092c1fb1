/** The code that replaces the Tart image and puts it right at startup. */
module TartCoordinator {
  import opened Wrappers
  import opened TartReplacement
  import opened TartRecovery

  class Coordinator {
    const config: string
    var images: map<string, Image>
    var records: seq<Record>

    ghost function View(): World
      reads this
    {
      World(images, records)
    }

    // ------------------------------------------------- provider and catalog

    method Clone(source: string, name: string, c: CloneCall) returns (o: Outcome)
      modifies `images
      ensures (View(), o) == Cloned(old(View()), source, name, c)
    {
      if source !in images { return Failed; }
      if Lands(c.fault) {
        var content := if c.fault.Works? || c.torn.None? then images[source].content else c.torn.value;
        images := images[name := Image(c.id, content, false)];
      }
      o := End(c.fault);
    }

    method Delete(name: string, f: Fault) returns (o: Outcome)
      modifies `images
      ensures View() == Deleted(old(View()), name, f) && o == End(f)
    {
      if Lands(f) { images := images - {name}; }
      o := End(f);
    }

    method Stop(name: string, f: Fault) returns (o: Outcome)
      modifies `images
      ensures (View(), o) == Stopped(old(View()), name, f)
    {
      if name !in images { return Failed; }
      if Lands(f) { images := images[name := images[name].(running := false)]; }
      o := End(f);
    }

    method VerifyIdentity(name: string, f: Fault) returns (o: Outcome)
      ensures o == ReadBack(View(), name, f)
    {
      if f.Works? && (name !in images || images[name].id == "") { return Failed; }
      o := End(f);
    }

    method UpsertRecord(r: Record)
      modifies `records
      ensures records == Upsert(old(records), r)
    {
      var i := 0;
      while i < |records| && records[i].identity != r.identity
        invariant i <= |records| && Upsert(records, r) == records[..i] + Upsert(records[i..], r)
      {
        assert records[i..][1..] == records[i + 1..];
        i := i + 1;
      }
      records := if i < |records| then records[i := r] else records + [r];
    }

    method RecordStaging(name: string, list: Fault, write: Fault) returns (o: Outcome)
      modifies `records
      ensures (View(), o) == Recorded(config, old(View()), name, list, write)
    {
      if !list.Works? { return End(list); }
      if name !in images || images[name].id == "" { return Failed; }
      if Lands(write) { UpsertRecord(RollbackRecord(config, name, images[name].id)); }
      o := End(write);
    }

    // ------------------------------------------------------------- replacement

    method SetAside(n: Names, running: bool, s: ReplaceScript) returns (o: Outcome)
      modifies this
      ensures (View(), o) == SetAsideBy(config, old(View()), n, running, s)
    {
      o := Clone(n.output, n.backup, s.toBackup);
      if !o.Done? { return; }
      o := VerifyIdentity(n.backup, s.readBackup);
      if !o.Done? { return; }
      o := RecordStaging(n.backup, s.recordList, s.record);
      if o.Crashed? { return; }
      if o.Failed? {
        var undone := Delete(n.backup, s.undo);
        return if undone.Crashed? then Crashed else Failed;
      }
      if running {
        o := Stop(n.output, s.stop);
        if !o.Done? { return; }
      }
      o := Delete(n.output, s.free);
    }

    method Restore(n: Names, s: RestoreScript) returns (o: Outcome)
      modifies `images
      ensures (View(), o) == RestoredBy(old(View()), n, s)
    {
      if !s.list.Works? { return End(s.list); }
      if n.output in images {
        if images[n.output].running {
          o := Stop(n.output, s.stop);
          if !o.Done? { return; }
        }
        o := Delete(n.output, s.delete);
        if !o.Done? { return; }
      }
      o := Clone(n.backup, n.output, s.clone);
      if !o.Done? { return; }
      o := VerifyIdentity(n.output, s.read);
    }

    method Activate(previous: Option<Image>, output: string, manifestHash: string, s: ReplaceScript) returns (r: Result, readBack: bool)
      modifies this
      ensures (View(), r, readBack) == ReplacedBy(config, old(View()), NamesOf(output, manifestHash, previous), previous, s)
    {
      var n := NamesOf(output, manifestHash, previous);
      if !s.list.Works? { return if End(s.list).Crashed? then ProcessLost else Refused, false; }
      if n.build !in images || images[n.build].id == "" { return Refused, false; }
      if n.output in images {
        if previous.None? || previous.value.id == "" || images[n.output].id != previous.value.id { return Refused, false; }
      } else if previous.Some? {
        return Refused, false;
      }
      if previous.Some? {
        if n.backup in images { return Refused, false; }
        var o := SetAside(n, previous.value.running, s);
        if !o.Done? { return if o.Crashed? then ProcessLost else Refused, false; }
      }
      r, readBack := PutCandidate(n, previous.Some?, s);
    }

    method PutCandidate(n: Names, replacing: bool, s: ReplaceScript) returns (r: Result, readBack: bool)
      modifies `images
      ensures (View(), r, readBack) == PutBy(old(View()), n, replacing, s)
    {
      readBack := false;
      var o := Clone(n.build, n.output, s.toOutput);
      if o.Done? { o := VerifyIdentity(n.output, s.readOutput); }
      if o.Crashed? { return ProcessLost, false; }
      if o.Failed? {
        if !replacing { return CandidateKept, false; }
        o := Restore(n, s.restore);
        return match o case Done => PreviousRestored case Failed => RollbackFailed case Crashed => ProcessLost, false;
      }
      readBack := true;
      if replacing {
        o := Delete(n.backup, s.dropBackup);
        if o.Crashed? { return ProcessLost, true; }
      }
      o := Delete(n.build, s.dropBuild);
      return if o.Crashed? then ProcessLost else Replaced, true;
    }

    // ----------------------------------------------------------------- startup

    method FindExact() returns (found: Option<Record>)
      ensures found == FirstExact(config, images, records)
    {
      var i := 0;
      while i < |records|
        invariant i <= |records| && FirstExact(config, images, records) == FirstExact(config, images, records[i..])
      {
        if Exact(config, images, records[i]) { return Some(records[i]); }
        assert records[i..][1..] == records[i + 1..];
        i := i + 1;
      }
      found := None;
    }

    /** Takes this configuration's staging reference out of every record, in
        place. */
    method GiveUpRecords()
      modifies `records
      ensures records == GivenUp(config, old(records))
    {
      for i := 0 to |records|
        invariant |records| == |old(records)|
        invariant forall k | 0 <= k < |records| :: records[k] == if k < i then GiveUp(config, old(records)[k]) else old(records)[k]
      {
        var r := records[i];
        if r.staging && Ref(config, STAGING) in r.references {
          var rest := r.references - {Ref(config, STAGING)};
          records := records[i := r.(references := rest, staging := rest != {})];
        }
      }
    }

    method Release(f: Fault) returns (o: Outcome)
      modifies `records
      ensures (View(), o) == ReleasedBy(config, old(View()), f)
    {
      if Lands(f) { GiveUpRecords(); }
      o := End(f);
    }

    /** Startup: a missing output image comes back from the first exact rollback
        image, and only then are this configuration's records given up. */
    method Reconcile(output: string, s: StartScript) returns (o: Outcome)
      modifies this
      ensures (View(), o) == StartedBy(config, output, old(View()), s)
    {
      if !s.admitted.Done? { return s.admitted; }
      if forall r | r in records :: !Mine(config, r) { return Done; }
      if !s.list.Works? { return End(s.list); }
      if output !in images {
        var rollback := FindExact();
        if rollback.None? { return Failed; }
        o := Clone(rollback.value.locator, output, s.clone);
        if !o.Done? { return; }
        o := VerifyIdentity(output, s.read);
        if !o.Done? { return; }
      }
      o := Release(s.write);
    }
  }
}
