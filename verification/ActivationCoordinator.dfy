/** The code of activation, rollback and recovery over the stores it updates. */
module ActivationCoordinator {
  import opened Wrappers
  import opened ActivationState
  import opened Activation

  class Coordinator {
    const config: string
    var journal: Option<Journal>
    var receipt: ReceiptFile
    var catalog: Catalog
    var cache: map<string, string>
    var active: Option<Artifact>

    ghost function View(): World
      reads this
    {
      World(journal, receipt, catalog, cache, active)
    }

    // ------------------------------------------- one store operation at a time

    method PersistJournal(j: Journal, f: Fault) returns (o: Outcome)
      modifies `journal
      ensures View() == Persisted(old(View()), j, f) && o == End(f)
    {
      if Lands(f) { journal := Some(j); }
      o := End(f);
    }

    method RemoveJournal(f: Fault) returns (o: Outcome)
      modifies `journal
      ensures View() == Unjournaled(old(View()), f) && o == End(f)
    {
      if Lands(f) { journal := None; }
      o := End(f);
    }

    method WriteReceipt(r: Receipt, f: Fault) returns (o: Outcome)
      modifies `receipt
      ensures receipt == (if Lands(f) then Stored(r) else old(receipt)) && o == End(f)
    {
      if Lands(f) { receipt := Stored(r); }
      o := End(f);
    }

    method RemoveReceipt(f: Fault) returns (o: Outcome)
      modifies `receipt
      ensures receipt == (if Lands(f) then Missing else old(receipt)) && o == End(f)
    {
      if Lands(f) { receipt := Missing; }
      o := End(f);
    }

    /** One locked catalog transaction that would store `next`. */
    method UpdateCatalog(next: Catalog, f: Fault) returns (o: Outcome)
      modifies `catalog
      ensures catalog == (if Lands(f) then next else old(catalog)) && o == End(f)
    {
      if Lands(f) { catalog := next; }
      o := End(f);
    }

    method RecordCurrent(a: Artifact, register: Fault, release: Fault) returns (o: Outcome)
      modifies `catalog
      ensures (View(), o) == Registered(config, old(View()), a, register, release)
    {
      if a.cacheId == "" || a.reference == "" { return Failed; }
      o := UpdateCatalog(RegisterCurrent(catalog, Ref(config, PROVIDER_ARTIFACT), a), register);
      if !o.Done? { return; }
      o := UpdateCatalog(ReleaseRole(catalog, Ref(config, BUILD_SOURCE)), release);
    }

    method VerifyImported(a: Artifact, f: Fault) returns (v: Lookup)
      ensures v == Look(f, InCache(cache, a))
    {
      v := Look(f, InCache(cache, a));
    }

    method ResolveCacheId(reference: string, f: Fault) returns (v: Lookup, id: string)
      ensures v == Look(f, reference in cache)
      ensures v.Found? ==> id == cache[reference]
    {
      v := Look(f, reference in cache);
      id := if v.Found? then cache[reference] else "";
    }

    /** Imports an archive; the runtime chooses the cache identity. */
    method ImportTemplate(reference: string, f: Fault, id: string) returns (o: Outcome)
      modifies `cache
      ensures cache == (if Lands(f) then old(cache)[reference := id] else old(cache)) && o == End(f)
    {
      if Lands(f) { cache := cache[reference := id]; }
      o := End(f);
    }

    method ActivateTemplate(a: Artifact, f: Fault) returns (o: Outcome)
      modifies `active
      ensures active == (if f.Works? then Some(a) else old(active)) && o == End(f)
    {
      if f.Works? { active := Some(a); }
      o := End(f);
    }

    // ---------------------------------------------------------------- rollback

    method RestoreActive(j: Journal, s: RollbackScript) returns (o: Outcome)
      modifies `active
      ensures (View(), o) == RestoredActive(old(View()), j, s)
    {
      if j.previous.Some? {
        var v := VerifyImported(j.previous.value.artifact, s.verify);
        if !v.Found? { return EndOf(v); }
        o := ActivateTemplate(j.previous.value.artifact, s.activate);
      } else if active.Some? {
        if active != Some(j.candidate.artifact) { return Failed; }
        active := None;
        o := Done;
      } else {
        o := Done;
      }
    }

    method RestoreRecords(j: Journal, s: RollbackScript) returns (o: Outcome)
      modifies `receipt, `catalog
      ensures (View(), o) == RestoredRecords(config, old(View()), j, s)
    {
      if j.previous.Some? {
        var p := j.previous.value;
        o := WriteReceipt(p, s.receipt);
        if !o.Done? { return; }
        o := RecordCurrent(p.artifact, s.register, s.release);
      } else {
        o := RemoveReceipt(s.receipt);
        if !o.Done? { return; }
        o := UpdateCatalog(ReleaseRole(catalog, Ref(config, PROVIDER_ARTIFACT)), s.register);
      }
    }

    method DecideCustody(j: Journal, s: RollbackScript) returns (o: Outcome, custody: bool)
      ensures (o, custody) == CustodyOf(View(), j, s)
    {
      custody := j.imported;
      o := Done;
      if j.previous.None? || j.previous.value.artifact != j.candidate.artifact {
        if !custody && j.candidate.artifact.cacheId != "" {
          var v := VerifyImported(j.candidate.artifact, s.custody);
          custody := v.Found?;
          o := if v.NotFound? then Done else EndOf(v);
        }
      } else {
        custody := false;
      }
    }

    method RestoreWithCustody(j: Journal, custody: bool, s: RollbackScript) returns (o: Outcome)
      modifies `receipt, `catalog
      ensures (View(), o) == RestoredWithCustody(config, old(View()), j, custody, s)
    {
      o := RestoreRecords(j, s);
      if !o.Done? || !custody { return; }
      var next := RecordSuperseded(catalog, j.candidate.artifact);
      if next.None? { return Failed; }
      o := UpdateCatalog(next.value, s.supersede);
    }

    method Rollback(j: Journal, s: RollbackScript) returns (o: Outcome)
      modifies `journal, `receipt, `catalog, `active
      ensures (View(), o) == RolledBackBy(config, old(View()), j, s)
    {
      var failed, custody;
      o, custody := DecideCustody(j, s);
      if o.Crashed? { return; }
      failed := o.Failed?;
      o := RestoreActive(j, s);
      if o.Crashed? { return; }
      failed := failed || o.Failed?;
      if !failed {
        o := RestoreWithCustody(j, custody, s);
        if o.Crashed? { return; }
        failed := o.Failed?;
      }
      if failed {
        o := PersistJournal(j, s.persist);
        if o.Done? { o := Failed; }
        return;
      }
      o := PersistJournal(j.(phase := RolledBack), s.persist);
      if !o.Done? { return; }
      o := RemoveJournal(s.remove);
    }

    // ---------------------------------------------------------------- recovery

    method Recover(s: RecoverScript) returns (o: Outcome)
      modifies this
      ensures (View(), o) == RecoveredBy(config, old(View()), s)
    {
      if journal.None? { return Done; }
      if !s.admitted.Done? { return s.admitted; }
      var j := journal.value;
      if j.imported {
        var v, id := ResolveCacheId(j.candidate.artifact.reference, s.resolve);
        if v.LookupCrashed? { return Crashed; }
        if v.LookupFailed? { return Failed; }
        if v.Found? { j := j.(candidate := WithCacheId(j.candidate, id)); }
      }
      assert j == Reread(old(View()), old(journal).value);
      if s.readable && receipt.Stored? && SameReceipt(receipt.receipt, j.candidate) {
        o := CommitPublished(j, s);
      } else {
        o := Rollback(j, s.rollback);
      }
    }

    method CommitPublished(j: Journal, s: RecoverScript) returns (o: Outcome)
      modifies this
      ensures (View(), o) == CommittedBy(config, old(View()), j, s)
    {
      var a := j.candidate.artifact;
      var v := VerifyImported(a, s.lookup);
      if !v.Found? {
        if !v.NotFound? { return EndOf(v); }
        if j.archivePath == "" || !s.archiveOk { return Failed; }
        o := ImportTemplate(a.reference, s.load, s.id);
        if !o.Done? { return; }
      }
      v := VerifyImported(a, s.verify);
      if !v.Found? { return EndOf(v); }
      o := ActivateTemplate(a, s.activate);
      if !o.Done? { return; }
      o := RecordCurrent(a, s.register, s.release);
      if !o.Done? { return; }
      o := RemoveJournal(s.remove);
    }

    // -------------------------------------------------------------- activation

    /** Finds the candidate in the provider cache or imports it. */
    method Acquire(given: Receipt, archivePath: string, alreadyVerified: bool, prepared: Journal, s: ActivateScript)
      returns (o: Outcome, c: Receipt, j: Journal)
      modifies `cache
      ensures (View(), o, c, j) == AcquiredBy(old(View()), given, archivePath, alreadyVerified, prepared, s)
    {
      c, j := given, prepared;
      if alreadyVerified { return Done, c, j; }
      var v := Found;
      if c.artifact.cacheId == "" {
        var id;
        v, id := ResolveCacheId(c.artifact.reference, s.resolve);
        if v.Found? { c := WithCacheId(c, id); j := j.(candidate := c); }
      }
      if v.Found? { v := VerifyImported(c.artifact, s.lookup); }
      if !v.NotFound? { return EndOf(v), c, j; }
      if archivePath == "" || !s.archiveOk { return Failed, c, j; }
      o := ImportTemplate(c.artifact.reference, s.load, s.id);
      if !o.Done? { return; }
      j := j.(imported := true);
      if c.artifact.cacheId == "" {
        var id;
        v, id := ResolveCacheId(c.artifact.reference, s.resolveLoaded);
        if !v.Found? { return EndOf(v), c, j; }
        c := WithCacheId(c, id);
        j := j.(candidate := c);
      }
    }

    /** Makes the candidate the active template and reads it back. */
    method PublishActive(c: Receipt, prepared: Journal, s: ActivateScript) returns (o: Outcome, activated: bool, j: Journal)
      modifies `journal, `active
      ensures (View(), o, activated, j) == PublishedActive(old(View()), c, prepared, s)
    {
      activated := false;
      j := prepared.(phase := AdmissionBlocked);
      o := PersistJournal(j, s.blocked);
      if !o.Done? { return; }
      o := ActivateTemplate(c.artifact, s.activate);
      if !o.Done? { return; }
      activated := true;
      j := j.(phase := Activated);
      o := PersistJournal(j, s.activated);
      if !o.Done? { return; }
      if active != Some(c.artifact) { return Failed, activated, j; }
      var v := VerifyImported(c.artifact, s.readBack);
      if !v.Found? { return EndOf(v), activated, j; }
      j := j.(phase := ReadBack);
      o := PersistJournal(j, s.confirmed);
    }

    /** Publishes the receipt, then the catalog ownership. */
    method PublishRecords(c: Receipt, readBack: Journal, s: ActivateScript) returns (o: Outcome, j: Journal)
      modifies `journal, `receipt, `catalog
      ensures (View(), o, j) == PublishedRecords(config, old(View()), c, readBack, s)
    {
      j := readBack;
      o := WriteReceipt(c, s.receipt);
      if !o.Done? { return; }
      j := j.(phase := ReceiptPublished);
      o := PersistJournal(j, s.published);
      if !o.Done? { return; }
      o := RecordCurrent(c.artifact, s.register, s.release);
      if !o.Done? { return; }
      j := j.(phase := Committed);
      o := PersistJournal(j, s.committed);
    }

    method Verify(imported: Receipt, inMemory: Journal, deferred: bool, s: ActivateScript) returns (o: Outcome, c: Receipt, j: Journal)
      modifies `journal
      ensures (View(), o, c, j) == VerifiedBy(old(View()), imported, inMemory, deferred, s)
    {
      c, j := imported, inMemory;
      if deferred {
        if !s.finalized.Done? { return s.finalized, c, j; }
        c := c.(metadata := s.metadata, evidence := s.evidence);
        j := j.(candidate := c);
        o := PersistJournal(j, s.completed);
        if !o.Done? { return; }
      }
      var v := VerifyImported(c.artifact, s.verify);
      if !v.Found? { return EndOf(v), c, j; }
      j := j.(phase := Verified);
      o := PersistJournal(j, s.verified);
    }

    method Obtain(given: Receipt, archivePath: string, alreadyVerified: bool, deferred: bool, j0: Journal, s: ActivateScript)
      returns (o: Outcome, c: Receipt, j: Journal)
      modifies `journal, `cache
      ensures (View(), o, c, j) == ObtainedBy(old(View()), given, archivePath, alreadyVerified, deferred, j0, s)
    {
      o, c, j := Acquire(given, archivePath, alreadyVerified, j0, s);
      if !o.Done? { return; }
      j := j.(phase := Imported);
      o := PersistJournal(j, s.imported);
      if !o.Done? { return; }
      o, c, j := Verify(c, j, deferred, s);
    }

    /** Journals the run, puts the candidate in the cache and verifies it there.
        A previous receipt that cannot be read is journaled as none. */
    method Prepare(given: Receipt, archivePath: string, alreadyVerified: bool, deferred: bool, s: ActivateScript)
      returns (o: Outcome, c: Receipt, j: Journal)
      modifies `journal, `cache
      ensures (View(), o, c, j) == PreparedBy(old(View()), given, archivePath, alreadyVerified, deferred, s)
    {
      c := given;
      j := Journal(Prepared, given, ReadOf(receipt, s.readable), archivePath, false);
      if !deferred {
        if !s.evidenceOk { return Failed, c, j; }
      } else if given.distribution != Prebuilt || given.artifact.cacheId != "" || given.evidence != [] {
        return Failed, c, j;
      }
      if journal.Some? { return Failed, c, j; }
      if s.readable && receipt.Stored? && !s.previousOk { return Failed, c, j; }
      o := PersistJournal(j, s.journal);
      if !o.Done? { return; }
      o, c, j := Obtain(given, archivePath, alreadyVerified, deferred, j, s);
    }

    /** What follows the verified phase. */
    method Publish(c: Receipt, prepared: Journal, s: ActivateScript) returns (o: Outcome)
      modifies `journal, `receipt, `catalog, `active
      ensures (View(), o) == PublishedBy(config, old(View()), c, prepared, s)
    {
      var activated, j;
      o, activated, j := PublishActive(c, prepared, s);
      if o.Done? { o, j := PublishRecords(c, j, s); }
      if o.Failed? && activated {
        var o' := Rollback(j, s.rollback);
        return if o'.Crashed? then Crashed else Failed;
      }
      if !o.Done? { return; }
      o := RemoveJournal(s.remove);
    }

    method Activate(given: Receipt, archivePath: string, alreadyVerified: bool, deferred: bool, s: ActivateScript) returns (o: Outcome)
      modifies this
      ensures (View(), o) == ActivatedBy(config, old(View()), given, archivePath, alreadyVerified, deferred, s)
    {
      var c, j;
      o, c, j := Prepare(given, archivePath, alreadyVerified, deferred, s);
      if !o.Done? { return; }
      o := Publish(c, j, s);
    }
  }
}
