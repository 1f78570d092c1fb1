/** Which names of tar entries a template archive may carry. */
module ArchiveNames {
  import opened Splitting
  import opened Text
  import opened Wrappers

  /** Lexical reduction of the components of a relative path. */
  function Reduce(parts: seq<string>, stack: seq<string>): seq<string>
    decreases |parts|
  {
    if parts == [] then stack
    else if parts[0] == "" || parts[0] == "." then Reduce(parts[1..], stack)
    else if parts[0] == ".." && stack != [] && Last(stack) != ".." then Reduce(parts[1..], Front(stack))
    else Reduce(parts[1..], stack + [parts[0]])
  }

  /** The shortest path equivalent to a relative path. */
  function Clean(path: string): string {
    var parts := Reduce(Split(path, '/'), []);
    if parts == [] then "." else Join(parts, '/')
  }

  function SafeArchiveName(value: string): Option<string> {
    if value == "" || '\0' in value || '\\' in value || HasPrefix(value, "/") then None
    else
      var normalized := TrimSuffix(value, "/");
      var clean := Clean(normalized);
      if clean == "." || clean == ".." || HasPrefix(clean, "../") || clean != normalized then None
      else Some(clean)
  }

  predicate Ordinary(part: string) {
    part != "" && part != "." && part != ".."
  }

  /** A stack of reduced components: the steps up come first. */
  ghost predicate Reduced(stack: seq<string>) {
    && (forall p | p in stack :: p != "" && p != "." && '/' !in p)
    && (forall i | 0 < i < |stack| && stack[i] == ".." :: stack[i - 1] == "..")
  }

  lemma {:induction false} ReduceKeepsReduced(parts: seq<string>, stack: seq<string>)
    requires Reduced(stack) && forall p | p in parts :: '/' !in p
    ensures Reduced(Reduce(parts, stack))
    decreases |parts|
  {
    if parts != [] {
      var first := parts[0];
      if first == "" || first == "." {
        ReduceKeepsReduced(parts[1..], stack);
      } else if first == ".." && stack != [] && Last(stack) != ".." {
        assert forall p | p in Front(stack) :: p in stack;
        ReduceKeepsReduced(parts[1..], Front(stack));
      } else {
        ReduceKeepsReduced(parts[1..], stack + [first]);
      }
    }
  }

  lemma {:induction false} ReduceKeepsOrdinary(parts: seq<string>, stack: seq<string>)
    requires forall p | p in parts :: Ordinary(p)
    ensures Reduce(parts, stack) == stack + parts
    decreases |parts|
  {
    if parts == [] {
      assert stack + parts == stack;
    } else {
      assert Ordinary(parts[0]);
      ReduceKeepsOrdinary(parts[1..], stack + [parts[0]]);
      assert stack + [parts[0]] + parts[1..] == stack + parts;
    }
  }

  lemma {:induction false} StepsUpComeFirst(stack: seq<string>, i: nat)
    requires Reduced(stack) && i < |stack| && stack[i] == ".."
    ensures stack[0] == ".."
    decreases i
  {
    if i > 0 {
      StepsUpComeFirst(stack, i - 1);
    }
  }

  lemma JoinStartsWithFirst(parts: seq<string>)
    requires |parts| > 0 && parts[0] == ".."
    ensures Join(parts, '/') == ".." || HasPrefix(Join(parts, '/'), "../")
  {
    if |parts| > 1 {
      assert Join(parts, '/') == "../" + Join(parts[1..], '/');
    }
  }

  lemma SplitStartsWithFirst(path: string)
    ensures HasPrefix(path, "../") ==> ".." in Split(path, '/')
    ensures HasPrefix(path, "/") || path == "" ==> "" in Split(path, '/')
  {
    assert Split(path, '/')[0] in Split(path, '/');
    if HasPrefix(path, "../") {
      assert path == ".." + ['/'] + path[3..];
      SplitAtSeparator("..", path[3..], '/');
      SplitWithout("..", '/');
      assert Split(path, '/')[0] == "..";
    }
  }

  /** A path that cleaning leaves alone and that is neither "." nor a step up
      has only ordinary components. */
  lemma CleanPathIsOrdinary(path: string)
    requires Clean(path) == path && path != "." && path != ".." && !HasPrefix(path, "../")
    ensures forall p | p in Split(path, '/') :: Ordinary(p)
  {
    PartsLackSeparator(path, '/');
    var reduced := Reduce(Split(path, '/'), []);
    ReduceKeepsReduced(Split(path, '/'), []);
    SplitOfJoin(reduced, '/');
    forall i | 0 <= i < |reduced| ensures reduced[i] != ".." {
      if reduced[i] == ".." {
        StepsUpComeFirst(reduced, i);
        JoinStartsWithFirst(reduced);
        assert false;
      }
    }
  }

  lemma OrdinaryPathIsClean(path: string)
    requires forall p | p in Split(path, '/') :: Ordinary(p)
    ensures Clean(path) == path && path != "" && path != "." && path != ".." && !HasPrefix(path, "../") && !HasPrefix(path, "/")
  {
    var parts := Split(path, '/');
    ReduceKeepsOrdinary(parts, []);
    assert [] + parts == parts;
    JoinOfSplit(path, '/');
    SplitWithout(".", '/');
    SplitWithout("..", '/');
    assert "." in Split(".", '/') && ".." in Split("..", '/');
    SplitStartsWithFirst(path);
  }

  /** Exactly the names without a NUL or backslash whose components, one
      trailing slash aside, are all ordinary are accepted, and unchanged. */
  lemma SafeNamesHaveOrdinaryParts(value: string)
    ensures SafeArchiveName(value).Some?
            <==> '\0' !in value && '\\' !in value && (forall p | p in Split(TrimSuffix(value, "/"), '/') :: Ordinary(p))
    ensures SafeArchiveName(value).Some? ==> SafeArchiveName(value).value == TrimSuffix(value, "/")
  {
    var normalized := TrimSuffix(value, "/");
    if SafeArchiveName(value).Some? {
      CleanPathIsOrdinary(normalized);
    } else if forall p | p in Split(normalized, '/') :: Ordinary(p) {
      OrdinaryPathIsClean(normalized);
      assert HasPrefix(value, "/") ==> normalized == "" || HasPrefix(normalized, "/");
    }
  }

  /** Two entries get the same name only if they differ by one trailing slash. */
  lemma SafeNamesCollide(a: string, b: string)
    requires SafeArchiveName(a).Some? && SafeArchiveName(a) == SafeArchiveName(b)
    ensures a == b || a == b + "/" || b == a + "/"
  {
    SafeNamesHaveOrdinaryParts(a);
    SafeNamesHaveOrdinaryParts(b);
    forall v | v == a || v == b ensures v == TrimSuffix(v, "/") || v == TrimSuffix(v, "/") + "/" {
      if HasSuffix(v, "/") { assert v == v[..|v| - 1] + v[|v| - 1..]; }
    }
  }
}
