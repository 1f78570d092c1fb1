/** Taking the locks of several backends in order, as concurrent resets do. */
module BackendLocks {
  import opened Ordering
  import opened Text

  /** The lock of a backend: its identity without surrounding white space,
      hashed into a file name. The hash is taken to be injective. */
  function LockKey(backend: string): string {
    TrimSpace(backend)
  }

  function LockKeys(backends: seq<string>): seq<string> {
    seq(|backends|, i requires 0 <= i < |backends| => LockKey(backends[i]))
  }

  datatype Resource = Resource(backend: string, configs: seq<string>)

  /** The backends whose resources the configuration refers to. */
  ghost predicate Concerned(resources: seq<Resource>, config: string, backend: string) {
    LockKey(backend) != "" && exists r | r in resources :: r.backend == backend && config in r.configs
  }

  /** The lock files of one host. Other processes come and go between any two
      calls, and only ever take locks that are free or release their own. */
  class LockStore {
    var held: map<string, nat>

    ghost predicate Mine(me: nat, keys: set<string>)
      reads this
    {
      forall k :: k in keys <==> k in held && held[k] == me
    }

    /** Others come and go; of the locks of others these are given back. */
    method OthersAct(me: nat, freed: set<string>, ghost keys: set<string>)
      requires Mine(me, keys)
      modifies this
      ensures Mine(me, keys)
      ensures forall k | k in freed && k !in keys :: k !in held
    {
      var theirs: map<string, nat> := *;
      var own := map k | k in held && held[k] == me :: me;
      held := (map k | k in theirs && theirs[k] != me && k !in own && k !in freed :: theirs[k]) + own;
    }

    /** Waits for the lock; `freed` says that its holder gives it back in time, and
        that nothing else goes wrong. Its own lock nobody gives back. */
    method AcquireBackendLock(me: nat, backend: string, freed: bool, ghost keys: set<string>) returns (ok: bool)
      requires Mine(me, keys)
      modifies this
      ensures ok <==> LockKey(backend) != "" && LockKey(backend) !in keys && freed
      ensures Mine(me, if ok then keys + {LockKey(backend)} else keys)
    {
      var key := TrimSpace(backend);
      if key == "" { return false; }
      OthersAct(me, if freed then {key} else {}, keys);
      ok := freed && key !in held;
      if ok { held := held[key := me]; }
    }

    method Release(me: nat, backend: string, ghost keys: set<string>)
      requires Mine(me, keys) && LockKey(backend) in keys
      modifies this
      ensures Mine(me, keys - {LockKey(backend)})
    {
      held := held - {TrimSpace(backend)};
    }

    /** All locks or none: a failed acquisition gives back every lock it took. It
        succeeds exactly if every wait ends in time, no identity is blank, and no
        lock is wanted twice or held before. */
    method AcquireAll(me: nat, backends: seq<string>, freed: nat -> bool, ghost keys: set<string>) returns (ok: bool)
      requires Mine(me, keys)
      modifies this
      ensures ok <==> Separate(backends, keys) && forall i: nat | i < |backends| :: Available(backends, freed, i)
      ensures Mine(me, if ok then keys + KeySet(backends) else keys)
    {
      for i := 0 to |backends|
        invariant Mine(me, keys + KeySet(backends[..i])) && Separate(backends[..i], keys)
        invariant forall j: nat | j < i :: Available(backends, freed, j)
      {
        var taken := AcquireBackendLock(me, backends[i], freed(i), keys + KeySet(backends[..i]));
        if !taken {
          if LockKey(backends[i]) in keys + KeySet(backends[..i]) {
            TakenKey(backends, i, keys);
          } else {
            assert !Available(backends, freed, i);
          }
          Unwind(me, backends, i, keys);
          return false;
        }
        NewKey(backends, i, keys);
      }
      assert backends[..|backends|] == backends;
      ok := true;
    }

    method Unwind(me: nat, backends: seq<string>, taken: nat, ghost keys: set<string>)
      requires taken <= |backends| && Mine(me, keys + KeySet(backends[..taken]))
      requires Separate(backends[..taken], keys)
      modifies this
      ensures Mine(me, keys)
    {
      for i := taken downto 0
        invariant Mine(me, keys + KeySet(backends[..i])) && Separate(backends[..i], keys)
      {
        LastKey(backends, i, keys);
        Release(me, backends[i], keys + KeySet(backends[..i + 1]));
      }
    }

    /** The locks of one reset: those of every backend it concerns, in order. It
        gets them exactly if every wait ends in time and no two are the same. */
    method AcquireResetLocks(me: nat, resources: seq<Resource>, config: string, freed: nat -> bool)
      returns (ok: bool, backends: seq<string>)
      requires Mine(me, {})
      modifies this
      ensures StrictlySorted(backends) && forall b :: b in backends <==> Concerned(resources, config, b)
      ensures ok <==> DistinctKeys(backends) && forall i: nat | i < |backends| :: freed(i)
      ensures Mine(me, if ok then KeySet(backends) else {})
    {
      backends := ConcernedBackends(resources, config);
      ok := AcquireAll(me, backends, freed, {});
      assert {} + KeySet(backends) == KeySet(backends);
      assert forall i: nat | i < |backends| :: Concerned(resources, config, backends[i]);
      assert forall i: nat | i < |backends| :: Available(backends, freed, i) <==> freed(i);
    }
  }

  /** The lock is a lock, and the wait for it ends in time. */
  predicate Available(backends: seq<string>, freed: nat -> bool, i: nat)
    requires i < |backends|
  {
    LockKey(backends[i]) != "" && freed(i)
  }

  method ConcernedBackends(resources: seq<Resource>, config: string) returns (backends: seq<string>)
    ensures StrictlySorted(backends) && forall b :: b in backends <==> Concerned(resources, config, b)
  {
    var found: seq<string> := [];
    for i := 0 to |resources|
      invariant forall b :: b in found <==> Concerned(resources[..i], config, b)
      invariant Distinct(found)
    {
      var r := resources[i];
      assert resources[..i + 1] == resources[..i] + [r];
      if config in r.configs && TrimSpace(r.backend) != "" && r.backend !in found {
        found := found + [r.backend];
      }
    }
    assert resources[..|resources|] == resources;
    backends := SortStrings(found);
    LessIsOrder();
    DistinctAfterSort(found, Less);
  }

  ghost function KeySet(backends: seq<string>): set<string> {
    set b | b in backends :: LockKey(b)
  }

  ghost predicate DistinctKeys(backends: seq<string>) {
    forall i, j | 0 <= i < j < |backends| :: LockKey(backends[i]) != LockKey(backends[j])
  }

  /** No two backends share a lock, and none has one of `keys`. */
  ghost predicate Separate(backends: seq<string>, keys: set<string>) {
    DistinctKeys(backends) && keys !! KeySet(backends)
  }

  lemma NewKey(backends: seq<string>, i: nat, keys: set<string>)
    requires i < |backends| && Separate(backends[..i], keys) && LockKey(backends[i]) !in keys + KeySet(backends[..i])
    ensures Separate(backends[..i + 1], keys)
    ensures keys + KeySet(backends[..i]) + {LockKey(backends[i])} == keys + KeySet(backends[..i + 1])
  {
    var before, upTo := backends[..i], backends[..i + 1];
    assert upTo == before + [backends[i]];
    assert KeySet(upTo) == KeySet(before) + {LockKey(backends[i])};
    forall j, k | 0 <= j < k < |upTo| ensures LockKey(upTo[j]) != LockKey(upTo[k]) {
      assert upTo[j] == before[j] && before[j] in before;
      assert LockKey(before[j]) in KeySet(before);
    }
  }

  lemma TakenKey(backends: seq<string>, i: nat, keys: set<string>)
    requires i < |backends| && LockKey(backends[i]) in keys + KeySet(backends[..i])
    ensures !Separate(backends, keys)
  {
    assert backends[i] in backends && LockKey(backends[i]) in KeySet(backends);
    if LockKey(backends[i]) !in keys {
      var b :| b in backends[..i] && LockKey(b) == LockKey(backends[i]);
      var j :| 0 <= j < i && backends[j] == b;
    }
  }

  lemma LastKey(backends: seq<string>, i: nat, keys: set<string>)
    requires i < |backends| && Separate(backends[..i + 1], keys)
    ensures Separate(backends[..i], keys) && LockKey(backends[i]) in KeySet(backends[..i + 1])
    ensures keys + KeySet(backends[..i + 1]) - {LockKey(backends[i])} == keys + KeySet(backends[..i])
  {
    var before, upTo := backends[..i], backends[..i + 1];
    assert upTo == before + [backends[i]];
    assert KeySet(upTo) == KeySet(before) + {LockKey(backends[i])};
    assert upTo[i] in upTo;
    forall b | b in before ensures LockKey(b) != LockKey(backends[i]) {
      var j :| 0 <= j < i && before[j] == b;
      assert upTo[j] == b && upTo[i] == backends[i];
    }
    assert forall j | 0 <= j < i :: before[j] == upTo[j];
  }

  // ---------------------------------------------------------- waiting in cycles

  /** One reset on its way: the keys it takes in order, and how many it has. */
  datatype Reset = Reset(keys: seq<string>, taken: nat)

  /** The key that a reset waits for, unless it has all. */
  function Wanted(r: Reset): string {
    if r.taken < |r.keys| then r.keys[r.taken] else ""
  }

  ghost predicate WaitsFor(a: Reset, b: Reset) {
    a.taken < |a.keys| && b.taken <= |b.keys| && a.keys[a.taken] in b.keys[..b.taken]
  }

  function After(i: nat, n: nat): nat
    requires i < n
  {
    if i == n - 1 then 0 else i + 1
  }

  ghost predicate WaitingCycle(resets: seq<Reset>) {
    |resets| > 0 && forall i | 0 <= i < |resets| :: WaitsFor(resets[i], resets[After(i, |resets|)])
  }

  lemma WaitedKeyGrows(a: Reset, b: Reset)
    requires WaitsFor(a, b) && StrictlySorted(b.keys) && b.taken < |b.keys|
    ensures Less(Wanted(a), Wanted(b))
  {
  }

  lemma {:induction false} WaitedKeysGrow(resets: seq<Reset>, i: nat)
    requires WaitingCycle(resets) && (forall r | r in resets :: StrictlySorted(r.keys)) && 0 < i < |resets|
    ensures Less(Wanted(resets[0]), Wanted(resets[i]))
  {
    assert WaitsFor(resets[i - 1], resets[After(i - 1, |resets|)]) && WaitsFor(resets[i], resets[After(i, |resets|)]);
    assert WaitsFor(resets[0], resets[After(0, |resets|)]);
    WaitedKeyGrows(resets[i - 1], resets[i]);
    if i > 1 {
      WaitedKeysGrow(resets, i - 1);
      LessIsTransitive(Wanted(resets[0]), Wanted(resets[i - 1]), Wanted(resets[i]));
    }
  }

  /** Any number of resets that each take strictly growing keys never wait for
      one another in a circle, however far each of them is. */
  lemma NoWaitingCycle(resets: seq<Reset>)
    requires forall r | r in resets :: StrictlySorted(r.keys)
    ensures !WaitingCycle(resets)
  {
    if WaitingCycle(resets) {
      var last := |resets| - 1;
      assert WaitsFor(resets[last], resets[After(last, |resets|)]) && WaitsFor(resets[0], resets[After(0, |resets|)]);
      WaitedKeyGrows(resets[last], resets[0]);
      if last > 0 { WaitedKeysGrow(resets, last); }
      LessIsStrict(Wanted(resets[last]), Wanted(resets[0]));
      assert false;
    }
  }

  /** Whether a reset can come to wait in a circle: with itself alone, or with
      one other reset whose own keys do grow. */
  ghost predicate CanStall(keys: seq<string>) {
    || (exists taken: nat :: WaitingCycle([Reset(keys, taken)]))
    || (exists taken: nat, other: Reset :: StrictlySorted(other.keys) && WaitingCycle([Reset(keys, taken), other]))
  }

  /** Exactly the key sequences that do not grow strictly can stall. */
  lemma StallsExactlyWhenUnsorted(keys: seq<string>)
    ensures CanStall(keys) <==> !StrictlySorted(keys)
  {
    if StrictlySorted(keys) {
      forall taken: nat ensures !WaitingCycle([Reset(keys, taken)]) {
        NoWaitingCycle([Reset(keys, taken)]);
      }
      forall taken: nat, other: Reset | StrictlySorted(other.keys) ensures !WaitingCycle([Reset(keys, taken), other]) {
        NoWaitingCycle([Reset(keys, taken), other]);
      }
    } else {
      var i, j :| 0 <= i < j < |keys| && !Less(keys[i], keys[j]);
      LessIsTotal(keys[i], keys[j]);
      assert keys[i] in keys[..j];
      if keys[i] == keys[j] {
        assert WaitingCycle([Reset(keys, j)]);
      } else {
        var other := Reset([keys[j], keys[i]], 1);
        assert other.keys[..1] == [keys[j]];
        assert WaitingCycle([Reset(keys, j), other]);
      }
    }
  }

  /** Sorting the identities does not sort the keys: surrounding white space
      puts "b" before "a", or the same key twice. */
  lemma SpacesUnsortKeys()
    ensures StrictlySorted([" b", "a"]) && CanStall(LockKeys([" b", "a"]))
    ensures StrictlySorted([" a", "a"]) && CanStall(LockKeys([" a", "a"])) && !DistinctKeys([" a", "a"])
  {
    TrimOneSpace('a');
    TrimOneSpace('b');
    assert !Less("b", "a") && !Less("a", "a");
    StallsExactlyWhenUnsorted(LockKeys([" b", "a"]));
    StallsExactlyWhenUnsorted(LockKeys([" a", "a"]));
    assert LockKeys([" b", "a"]) == ["b", "a"] && LockKeys([" a", "a"]) == ["a", "a"];
    assert !Less(LockKeys([" b", "a"])[0], LockKeys([" b", "a"])[1]);
    assert !Less(LockKeys([" a", "a"])[0], LockKeys([" a", "a"])[1]);
    assert [" a", "a"][0] == " a" && [" a", "a"][1] == "a";
  }

  lemma TrimOneSpace(c: char)
    requires !IsSpace(c)
    ensures LockKey([c]) == LockKey([' ', c]) == [c]
  {
    assert [' ', c][1..] == [c];
    assert TrimLeft([' ', c]) == TrimLeft([c]) == [c];
    assert TrimRight([c]) == [c];
  }
}
