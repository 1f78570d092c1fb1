/** The canonical form of a host-trust snapshot, and the generation it names. */
module HostTrustCanonical {
  import opened Ordering
  import opened Splitting
  import opened Text
  import opened Wrappers

  /** A policy entry, or a source with its path as detail. */
  datatype Entry = Entry(scope: string, kind: string, detail: string)

  datatype Certificate = Certificate(name: string, pem: string, sha: string)

  datatype Snapshot = Snapshot(generation: string, hostOs: string, scopes: seq<string>, certificates: seq<Certificate>,
                               policy: seq<Entry>, sources: seq<Entry>)

  /** The functions of bytes and characters that the code calls: the raw
      certificates in a PEM text, the PEM text of one, the two digests as hex,
      and lower-casing of one character. */
  datatype Codec = Codec(parse: string -> Option<seq<string>>, encode: string -> string,
                         hash: string -> string, digest: string -> string, lower: char -> char)

  predicate HexDigit(c: char) {
    '0' <= c <= '9' || 'a' <= c <= 'f'
  }

  predicate HexDigest(s: string) {
    |s| == 64 && forall i | 0 <= i < 64 :: HexDigit(s[i])
  }

  /** Certificate digests are 64 hex digits. */
  ghost predicate HexHashes(codec: Codec) {
    forall a :: HexDigest(codec.hash(a))
  }

  /** What was parsed once is encoded and parsed again unchanged; lower-casing
      twice is lower-casing, and leaves white space alone. */
  ghost predicate Stable(codec: Codec) {
    && (forall p, r :: codec.parse(p).Some? && r in codec.parse(p).value ==> codec.parse(codec.encode(r)) == Some([r]))
    && (forall c :: codec.lower(codec.lower(c)) == codec.lower(c) && (IsSpace(codec.lower(c)) <==> IsSpace(c)))
  }

  // ------------------------------------------------------------------ texts

  function Lower(codec: Codec, s: string): string {
    seq(|s|, i requires 0 <= i < |s| => codec.lower(s[i]))
  }

  function Normal(codec: Codec, s: string): string {
    Lower(codec, TrimSpace(s))
  }

  predicate Trimmed(s: string) {
    s == "" || (!IsSpace(s[0]) && !IsSpace(Last(s)))
  }

  lemma {:induction false} TrimRightTrims(s: string)
    ensures TrimRight(s) == "" || (!IsSpace(Last(TrimRight(s))) && TrimRight(s)[0] == s[0])
  {
    if s != "" && IsSpace(Last(s)) { TrimRightTrims(Front(s)); }
  }

  lemma TrimmedStays(s: string)
    requires Trimmed(s)
    ensures TrimSpace(s) == s
  {
  }

  lemma NormalIsNormal(codec: Codec, s: string)
    requires Stable(codec)
    ensures Normal(codec, Normal(codec, s)) == Normal(codec, s)
  {
    var t := TrimSpace(s);
    TrimLeftTrims(s);
    TrimRightTrims(TrimLeft(s));
    assert Trimmed(t);
    assert Trimmed(Lower(codec, t));
    TrimmedStays(Lower(codec, t));
    assert Lower(codec, Lower(codec, t)) == Lower(codec, t);
  }

  // ----------------------------------------------------------------- entries

  predicate EntryLess(a: Entry, b: Entry) {
    if a.scope != b.scope then Less(a.scope, b.scope)
    else if a.kind != b.kind then Less(a.kind, b.kind)
    else Less(a.detail, b.detail)
  }

  lemma EntryLessIsOrder()
    ensures TotalOrder(EntryLess)
  {
    LessIsOrder();
    forall a, b ensures EntryLess(a, b) ==> !EntryLess(b, a) {
    }
    forall a, b ensures EntryLess(a, b) || a == b || EntryLess(b, a) {
    }
    forall a, b, c | !EntryLess(b, a) && !EntryLess(c, b) ensures !EntryLess(c, a) {
    }
  }

  /** The key under which equal policy entries meet. */
  function Key(e: Entry): string {
    e.scope + "\0" + e.kind + "\0" + e.detail
  }

  function LastWith(entries: seq<Entry>, key: string): Option<Entry> {
    if entries == [] then None
    else if Key(Last(entries)) == key then Some(Last(entries))
    else LastWith(Front(entries), key)
  }

  lemma {:induction false} LastWithIsIn(entries: seq<Entry>, key: string)
    ensures match LastWith(entries, key)
            case Some(e) => e in entries && Key(e) == key
            case None => forall e | e in entries :: Key(e) != key
  {
    if entries != [] {
      assert entries == Front(entries) + [Last(entries)];
      LastWithIsIn(Front(entries), key);
    }
  }

  // -------------------------------------------------------------- canonical

  /** The one certificate that a PEM text holds, under its own digest; of
      several under one digest the last. */
  function Single(codec: Codec, c: Certificate): Option<string> {
    var raws := codec.parse(c.pem);
    if raws.None? || raws.value == [] || (exists i | 0 <= i < |raws.value| :: codec.hash(raws.value[i]) != codec.hash(Last(raws.value)))
    then None
    else if c.sha != "" && c.sha != codec.hash(Last(raws.value)) then None
    else Some(Last(raws.value))
  }

  /** The standard form of a raw certificate. */
  function Standard(codec: Codec, raw: string): Certificate {
    var sha := codec.hash(raw);
    Certificate("epar-" + (if |sha| > 24 then sha[..24] else sha) + ".crt", codec.encode(raw), sha)
  }

  ghost predicate Valid(codec: Codec, s: Snapshot) {
    forall c | c in s.certificates :: Single(codec, c).Some?
  }

  predicate ShaLess(a: Certificate, b: Certificate) {
    Less(a.sha, b.sha)
  }

  /** The standard form of the last given certificate with this digest. */
  function LastUnder(codec: Codec, given: seq<Certificate>, sha: string): Option<Certificate> {
    if given == [] then None
    else
      var raw := Single(codec, Last(given));
      if raw.Some? && codec.hash(raw.value) == sha then Some(Standard(codec, raw.value))
      else LastUnder(codec, Front(given), sha)
  }

  /** `x` is the standard form of one of the given certificates. */
  ghost predicate IsStandard(codec: Codec, given: seq<Certificate>, x: Certificate) {
    exists c | c in given :: Single(codec, c).Some? && Standard(codec, Single(codec, c).value) == x
  }

  lemma {:induction false} LastUnderIsStandard(codec: Codec, given: seq<Certificate>, sha: string)
    ensures match LastUnder(codec, given, sha)
            case Some(x) => IsStandard(codec, given, x) && x.sha == sha
            case None => forall c | c in given && Single(codec, c).Some? :: codec.hash(Single(codec, c).value) != sha
  {
    if given != [] {
      assert given == Front(given) + [Last(given)];
      LastUnderIsStandard(codec, Front(given), sha);
    }
  }

  ghost predicate CertificatesOf(codec: Codec, given: seq<Certificate>, result: seq<Certificate>) {
    && StrictlySortedWith(result, ShaLess)
    && forall x :: x in result <==> LastUnder(codec, given, x.sha) == Some(x)
  }

  ghost predicate ScopesOf(codec: Codec, given: seq<string>, result: seq<string>) {
    && StrictlySorted(result)
    && forall x :: x in result <==> x != "" && exists v | v in given :: Normal(codec, v) == x
  }

  ghost predicate PolicyOf(given: seq<Entry>, result: seq<Entry>) {
    && StrictlySortedWith(result, EntryLess)
    && forall e :: e in result <==> LastWith(given, Key(e)) == Some(e)
  }

  ghost predicate SourcesOf(given: seq<Entry>, result: seq<Entry>) {
    SortedWith(result, EntryLess) && multiset(result) == multiset(given)
  }

  function Lines(texts: seq<string>): string {
    if texts == [] then "" else texts[0] + "\n" + Lines(texts[1..])
  }

  function ScopeLines(scopes: seq<string>): seq<string> {
    seq(|scopes|, i requires 0 <= i < |scopes| => "scope=" + scopes[i])
  }

  function ShaLines(certificates: seq<Certificate>): seq<string> {
    seq(|certificates|, i requires 0 <= i < |certificates| => certificates[i].sha)
  }

  function PolicyLines(policy: seq<Entry>): seq<string> {
    seq(|policy|, i requires 0 <= i < |policy| => Key(policy[i]))
  }

  const SCHEMA := "epar-hosttrust-schema=1"

  function ContentLines(s: Snapshot): seq<string> {
    [SCHEMA, "hostOS=" + s.hostOs] + ScopeLines(s.scopes) + ShaLines(s.certificates) + PolicyLines(s.policy)
  }

  /** The text whose digest names the generation. */
  function Content(s: Snapshot): string {
    Lines(ContentLines(s))
  }

  /** `c` is the canonical form of `s`. */
  ghost predicate Canonical(codec: Codec, s: Snapshot, c: Snapshot) {
    && c.hostOs == Normal(codec, s.hostOs)
    && CertificatesOf(codec, s.certificates, c.certificates)
    && ScopesOf(codec, s.scopes, c.scopes)
    && PolicyOf(s.policy, c.policy)
    && SourcesOf(s.sources, c.sources)
    && c.generation == codec.digest(Content(c))
  }

  method Canonicalize(codec: Codec, s: Snapshot) returns (r: Option<Snapshot>)
    ensures r.Some? <==> Valid(codec, s)
    ensures r.Some? ==> Canonical(codec, s, r.value)
  {
    var certificates := CanonicalCertificates(codec, s.certificates);
    if certificates.None? { return None; }
    var scopes := SortedUnique(codec, s.scopes);
    var policy := SortedPolicy(s.policy);
    EntryLessIsOrder();
    SortWithSorts(s.sources, EntryLess);
    var c := Snapshot("", Normal(codec, s.hostOs), scopes, certificates.value, policy, SortWith(s.sources, EntryLess));
    r := Some(c.(generation := codec.digest(Content(c))));
  }

  method CanonicalCertificates(codec: Codec, given: seq<Certificate>) returns (r: Option<seq<Certificate>>)
    ensures r.Some? <==> forall c | c in given :: Single(codec, c).Some?
    ensures r.Some? ==> CertificatesOf(codec, given, r.value)
  {
    var byHash: map<string, Certificate> := map[];
    for i := 0 to |given|
      invariant forall c | c in given[..i] :: Single(codec, c).Some?
      invariant Collected(codec, given[..i], byHash)
    {
      assert given[..i + 1] == given[..i] + [given[i]];
      var raw := Single(codec, given[i]);
      if raw.None? { return None; }
      CollectOne(codec, given[..i], byHash, given[i]);
      byHash := byHash[codec.hash(raw.value) := Standard(codec, raw.value)];
    }
    assert given[..|given|] == given;
    CollectedShas(codec, given, byHash);
    var listed := Listed(byHash);
    LessIsOrder();
    SortWithSorts(listed, ShaLess);
    DistinctPermutation(listed, SortWith(listed, ShaLess));
    StrictBySha(SortWith(listed, ShaLess), byHash);
    r := Some(SortWith(listed, ShaLess));
  }

  /** The last given certificate of each digest, in standard form. */
  ghost predicate Collected(codec: Codec, given: seq<Certificate>, byHash: map<string, Certificate>) {
    && (forall k :: k in byHash <==> LastUnder(codec, given, k).Some?)
    && (forall k | k in byHash :: LastUnder(codec, given, k) == Some(byHash[k]))
  }

  lemma CollectOne(codec: Codec, given: seq<Certificate>, byHash: map<string, Certificate>, c: Certificate)
    requires Collected(codec, given, byHash) && Single(codec, c).Some?
    ensures var x := Standard(codec, Single(codec, c).value); Collected(codec, given + [c], byHash[x.sha := x])
  {
    assert Front(given + [c]) == given && Last(given + [c]) == c;
  }

  lemma CollectedShas(codec: Codec, given: seq<Certificate>, byHash: map<string, Certificate>)
    requires Collected(codec, given, byHash)
    ensures forall k | k in byHash :: byHash[k].sha == k
  {
    forall k | k in byHash ensures byHash[k].sha == k { LastUnderIsStandard(codec, given, k); }
  }

  method Listed(byHash: map<string, Certificate>) returns (listed: seq<Certificate>)
    requires forall k | k in byHash :: byHash[k].sha == k
    ensures Distinct(listed) && forall x :: x in listed <==> x.sha in byHash && byHash[x.sha] == x
  {
    listed := [];
    var rest := byHash.Keys;
    while rest != {}
      invariant rest <= byHash.Keys && Distinct(listed)
      invariant forall x :: x in listed <==> x.sha in byHash.Keys - rest && byHash[x.sha] == x
    {
      var k :| k in rest;
      rest := rest - {k};
      listed := listed + [byHash[k]];
    }
  }

  lemma StrictBySha(s: seq<Certificate>, byHash: map<string, Certificate>)
    requires SortedWith(s, ShaLess) && Distinct(s) && forall x | x in s :: x.sha in byHash && byHash[x.sha] == x
    ensures StrictlySortedWith(s, ShaLess)
  {
    LessIsOrder();
    forall i, j | 0 <= i < j < |s| ensures ShaLess(s[i], s[j]) {
      assert s[i] in s && s[j] in s && s[i] != s[j] && !ShaLess(s[j], s[i]);
    }
  }

  method SortedUnique(codec: Codec, values: seq<string>) returns (r: seq<string>)
    ensures ScopesOf(codec, values, r)
  {
    var found: seq<string> := [];
    for i := 0 to |values|
      invariant Distinct(found)
      invariant forall x :: x in found <==> x != "" && exists v | v in values[..i] :: Normal(codec, v) == x
    {
      assert values[..i + 1] == values[..i] + [values[i]];
      var value := Normal(codec, values[i]);
      if value != "" && value !in found { found := found + [value]; }
    }
    assert values[..|values|] == values;
    LessIsOrder();
    DistinctAfterSort(found, Less);
    r := SortStrings(found);
  }

  method SortedPolicy(values: seq<Entry>) returns (r: seq<Entry>)
    ensures PolicyOf(values, r)
  {
    var seen: map<string, Entry> := map[];
    for i := 0 to |values|
      invariant forall k :: k in seen <==> LastWith(values[..i], k).Some?
      invariant forall k | k in seen :: LastWith(values[..i], k) == Some(seen[k])
    {
      assert Front(values[..i + 1]) == values[..i] && Last(values[..i + 1]) == values[i];
      seen := seen[Key(values[i]) := values[i]];
    }
    assert values[..|values|] == values;
    var listed := [];
    var rest := seen.Keys;
    KeysMatch(values, seen);
    while rest != {}
      invariant rest <= seen.Keys && Distinct(listed)
      invariant forall e :: e in listed <==> Key(e) in seen.Keys - rest && seen[Key(e)] == e
    {
      var k :| k in rest;
      rest := rest - {k};
      listed := listed + [seen[k]];
    }
    EntryLessIsOrder();
    DistinctAfterSort(listed, EntryLess);
    r := SortWith(listed, EntryLess);
  }

  lemma KeysMatch(values: seq<Entry>, seen: map<string, Entry>)
    requires forall k | k in seen :: LastWith(values, k) == Some(seen[k])
    ensures forall k | k in seen :: Key(seen[k]) == k
  {
    forall k | k in seen ensures Key(seen[k]) == k {
      LastWithIsIn(values, k);
    }
  }

  // ------------------------------------------------------ order and repetition

  /** Distinct policy entries have distinct keys. */
  ghost predicate KeysSeparate(policy: seq<Entry>) {
    forall e, f | e in policy && f in policy && Key(e) == Key(f) :: e == f
  }

  lemma SeparatePolicyIsSet(given: seq<Entry>, result: seq<Entry>)
    requires KeysSeparate(given) && PolicyOf(given, result)
    ensures forall e :: e in result <==> e in given
  {
    forall e ensures e in result <==> e in given {
      LastWithIsIn(given, Key(e));
    }
  }

  /** Distinct raw certificates among the given ones have distinct digests. */
  ghost predicate HashesSeparate(codec: Codec, given: seq<Certificate>) {
    forall c, d | c in given && d in given :: SameHashSameRaw(codec, c, d)
  }

  ghost predicate SameHashSameRaw(codec: Codec, c: Certificate, d: Certificate) {
    var (p, q) := (Single(codec, c), Single(codec, d));
    p.Some? && q.Some? && codec.hash(p.value) == codec.hash(q.value) ==> p == q
  }

  lemma SeparateCertificatesAreSet(codec: Codec, given: seq<Certificate>, result: seq<Certificate>)
    requires HashesSeparate(codec, given) && CertificatesOf(codec, given, result)
    ensures forall x :: x in result <==> IsStandard(codec, given, x)
  {
    forall x ensures x in result <==> IsStandard(codec, given, x) {
      LastUnderIsStandard(codec, given, x.sha);
      if IsStandard(codec, given, x) {
        var c :| c in given && Single(codec, c).Some? && Standard(codec, Single(codec, c).value) == x;
        var y := LastUnder(codec, given, x.sha).value;
        var d :| d in given && Single(codec, d).Some? && Standard(codec, Single(codec, d).value) == y;
        assert SameHashSameRaw(codec, c, d);
      }
    }
  }

  lemma SameCertificates(codec: Codec, given: seq<Certificate>, other: seq<Certificate>, a: seq<Certificate>, b: seq<Certificate>)
    requires CertificatesOf(codec, given, a) && CertificatesOf(codec, other, b)
    requires HashesSeparate(codec, given) && forall c :: c in given <==> c in other
    ensures a == b
  {
    LessIsOrder();
    SeparateCertificatesAreSet(codec, given, a);
    SeparateCertificatesAreSet(codec, other, b);
    forall x ensures IsStandard(codec, given, x) <==> IsStandard(codec, other, x) {
      if IsStandard(codec, given, x) {
        var c :| c in given && Single(codec, c).Some? && Standard(codec, Single(codec, c).value) == x;
        assert c in other;
      }
      if IsStandard(codec, other, x) {
        var c :| c in other && Single(codec, c).Some? && Standard(codec, Single(codec, c).value) == x;
        assert c in given;
      }
    }
    StrictlySortedIsUnique(a, b, ShaLess);
  }

  lemma SameScopes(codec: Codec, given: seq<string>, other: seq<string>, a: seq<string>, b: seq<string>)
    requires ScopesOf(codec, given, a) && ScopesOf(codec, other, b) && forall v :: v in given <==> v in other
    ensures a == b
  {
    LessIsOrder();
    forall x ensures x in a <==> x in b {
      if x in a {
        var v :| v in given && Normal(codec, v) == x;
        assert v in other;
      }
      if x in b {
        var v :| v in other && Normal(codec, v) == x;
        assert v in given;
      }
    }
    StrictlySortedIsUnique(a, b, Less);
  }

  /** Neither the order nor the repetition of certificates, scopes and policy
      entries matters, as long as distinct certificates have distinct digests
      and distinct policy entries distinct keys. */
  lemma OnlySetsMatter(codec: Codec, s: Snapshot, t: Snapshot, c: Snapshot, d: Snapshot)
    requires Canonical(codec, s, c) && Canonical(codec, t, d) && HashesSeparate(codec, s.certificates)
    requires Normal(codec, s.hostOs) == Normal(codec, t.hostOs)
    requires forall x :: x in s.certificates <==> x in t.certificates
    requires forall x :: x in s.scopes <==> x in t.scopes
    requires (forall x :: x in s.policy <==> x in t.policy) && KeysSeparate(s.policy)
    ensures c.certificates == d.certificates && c.scopes == d.scopes && c.policy == d.policy && c.generation == d.generation
  {
    SameCertificates(codec, s.certificates, t.certificates, c.certificates, d.certificates);
    SameScopes(codec, s.scopes, t.scopes, c.scopes, d.scopes);
    SeparatePolicyIsSet(s.policy, c.policy);
    SeparatePolicyIsSet(t.policy, d.policy);
    EntryLessIsOrder();
    StrictlySortedIsUnique(c.policy, d.policy, EntryLess);
  }

  /** Two distinct entries under one key make the outcome depend on which of
      them is named again last. */
  lemma SharedKeyDependsOnOrder(policy: seq<Entry>, e: Entry, f: Entry, a: seq<Entry>, b: seq<Entry>)
    requires e in policy && f in policy && e != f && Key(e) == Key(f)
    requires PolicyOf(policy + [e], a) && PolicyOf(policy + [f], b)
    ensures (forall x :: x in policy + [e] <==> x in policy + [f]) && a != b
  {
    assert LastWith(policy + [e], Key(e)) == Some(e) && LastWith(policy + [f], Key(f)) == Some(f);
    assert e in a && e !in b;
  }

  predicate NoNul(e: Entry) {
    '\0' !in e.scope && '\0' !in e.kind && '\0' !in e.detail
  }

  lemma KeyParts(e: Entry)
    requires NoNul(e)
    ensures Split(Key(e), '\0') == [e.scope, e.kind, e.detail]
  {
    var parts := [e.scope, e.kind, e.detail];
    assert Join(parts[2..], '\0') == e.detail;
    assert Join(parts[1..], '\0') == e.kind + ['\0'] + e.detail;
    assert Join(parts, '\0') == e.scope + ['\0'] + (e.kind + ['\0'] + e.detail);
    assert Key(e) == Join(parts, '\0');
    SplitOfJoin(parts, '\0');
  }

  /** Without a NUL in any field, keys are separate. */
  lemma CleanKeysSeparate(policy: seq<Entry>)
    requires forall e | e in policy :: NoNul(e)
    ensures KeysSeparate(policy)
  {
    forall e, f | e in policy && f in policy && Key(e) == Key(f) ensures e == f {
      KeyParts(e);
      KeyParts(f);
      assert [e.scope, e.kind, e.detail][0] == [f.scope, f.kind, f.detail][0];
      assert [e.scope, e.kind, e.detail][1] == [f.scope, f.kind, f.detail][1];
      assert [e.scope, e.kind, e.detail][2] == [f.scope, f.kind, f.detail][2];
    }
  }

  /** With one, they need not be. */
  lemma NulSharesKey()
    ensures Key(Entry("a\0b", "c", "d")) == Key(Entry("a", "b\0c", "d"))
  {
    assert Key(Entry("a\0b", "c", "d")) == "a\0b\0c\0d" == Key(Entry("a", "b\0c", "d"));
  }

  // -------------------------------------------------------------- idempotence

  lemma StandardIsSingle(codec: Codec, c: Certificate)
    requires Stable(codec) && Single(codec, c).Some?
    ensures Single(codec, Standard(codec, Single(codec, c).value)) == Single(codec, c)
  {
    assert Last(codec.parse(c.pem).value) in codec.parse(c.pem).value;
  }

  lemma StrictPolicyIsStable(given: seq<Entry>, result: seq<Entry>)
    requires PolicyOf(given, result)
    ensures PolicyOf(result, result)
  {
    forall e ensures e in result <==> LastWith(result, Key(e)) == Some(e) {
      LastWithIsIn(result, Key(e));
      if e in result {
        var f := LastWith(result, Key(e)).value;
        assert LastWith(given, Key(f)) == Some(f) && LastWith(given, Key(e)) == Some(e);
      }
    }
  }

  lemma StrictCertificatesAreStable(codec: Codec, given: seq<Certificate>, result: seq<Certificate>)
    requires Stable(codec) && CertificatesOf(codec, given, result)
    ensures CertificatesOf(codec, result, result)
    ensures forall x | x in result :: Single(codec, x).Some? && Standard(codec, Single(codec, x).value) == x
  {
    forall x | x in result ensures Single(codec, x).Some? && Standard(codec, Single(codec, x).value) == x {
      LastUnderIsStandard(codec, given, x.sha);
      var k :| k in given && Single(codec, k).Some? && Standard(codec, Single(codec, k).value) == x;
      StandardIsSingle(codec, k);
    }
    forall x ensures x in result <==> LastUnder(codec, result, x.sha) == Some(x) {
      LastUnderIsStandard(codec, result, x.sha);
      if x in result {
        var y := LastUnder(codec, result, x.sha).value;
        assert LastUnder(codec, given, y.sha) == Some(y) && LastUnder(codec, given, x.sha) == Some(x);
      }
    }
  }

  /** Canonicalizing what is canonical changes nothing: it is valid, and its own
      canonical form, and that is the only one. */
  lemma CanonicalIsStable(codec: Codec, s: Snapshot, c: Snapshot)
    requires Stable(codec) && Canonical(codec, s, c)
    ensures Valid(codec, c) && Canonical(codec, c, c)
    ensures forall d | Canonical(codec, c, d) :: d == c
  {
    StrictCertificatesAreStable(codec, s.certificates, c.certificates);
    NormalIsNormal(codec, s.hostOs);
    forall x | x in c.scopes ensures Normal(codec, x) == x {
      var v :| v in s.scopes && Normal(codec, v) == x;
      NormalIsNormal(codec, v);
    }
    StrictPolicyIsStable(s.policy, c.policy);
    forall d | Canonical(codec, c, d) ensures d == c {
      CanonicalIsUnique(codec, c, c, d);
    }
  }

  lemma CanonicalIsUnique(codec: Codec, s: Snapshot, c: Snapshot, d: Snapshot)
    requires Canonical(codec, s, c) && Canonical(codec, s, d)
    ensures c == d
  {
    LessIsOrder();
    StrictlySortedIsUnique(c.certificates, d.certificates, ShaLess);
    SameScopes(codec, s.scopes, s.scopes, c.scopes, d.scopes);
    EntryLessIsOrder();
    StrictlySortedIsUnique(c.policy, d.policy, EntryLess);
    SortedIsUnique(c.sources, d.sources, EntryLess);
  }

  // --------------------------------------------------------------- generation

  /** No text of the snapshot holds a line break, and only policy keys a NUL. */
  ghost predicate Plain(s: Snapshot) {
    && '\n' !in s.hostOs
    && (forall x | x in s.scopes :: '\n' !in x && '\0' !in x)
    && (forall e | e in s.policy :: NoNul(e) && '\n' !in Key(e))
  }

  lemma {:induction false} LinesJoin(texts: seq<string>)
    ensures Lines(texts) == Join(texts + [""], '\n')
  {
    if texts != [] {
      LinesJoin(texts[1..]);
      assert (texts + [""])[1..] == texts[1..] + [""];
    }
  }

  lemma LinesDetermineTexts(a: seq<string>, b: seq<string>)
    requires (forall t | t in a :: '\n' !in t) && (forall t | t in b :: '\n' !in t) && Lines(a) == Lines(b)
    ensures a == b
  {
    LinesJoin(a);
    LinesJoin(b);
    SplitOfJoin(a + [""], '\n');
    SplitOfJoin(b + [""], '\n');
    assert a == (a + [""])[..|a + [""]| - 1];
    assert b == (b + [""])[..|b + [""]| - 1];
  }

  lemma FirstTells(a: seq<string>, r: seq<string>, p: string -> bool)
    requires (forall t | t in a :: p(t)) && (forall t | t in r :: !p(t)) && a + r != []
    ensures p((a + r)[0]) <==> a != []
  {
    assert (a + r)[0] == if a != [] then a[0] else r[0];
  }

  /** Two ways to cut one sequence into a part with a property and one without. */
  lemma {:induction false} SameCut(a: seq<string>, r: seq<string>, b: seq<string>, q: seq<string>, p: string -> bool)
    requires (forall t | t in a :: p(t)) && (forall t | t in r :: !p(t)) && (forall t | t in b :: p(t)) && (forall t | t in q :: !p(t))
    requires a + r == b + q
    ensures a == b && r == q
    decreases |a|
  {
    if a + r == [] {
      assert |a + r| == |b + q| == 0;
    } else {
      FirstTells(a, r, p);
      FirstTells(b, q, p);
      if a != [] {
        assert a[0] == (a + r)[0] == (b + q)[0] == b[0];
        assert a[1..] + r == (a + r)[1..] == (b + q)[1..] == b[1..] + q;
        SameCut(a[1..], r, b[1..], q, p);
        assert a == [a[0]] + a[1..] && b == [b[0]] + b[1..];
      } else {
        assert a + r == r && b + q == q;
      }
    }
  }

  predicate ScopeLine(t: string) {
    HasPrefix(t, "scope=") && '\0' !in t
  }

  predicate ShaLine(t: string) {
    '\0' !in t
  }

  lemma KeyHasNul(e: Entry)
    ensures '\0' in Key(e)
  {
    assert Key(e)[|e.scope|] == '\0';
  }

  /** The lines of a plain canonical snapshot fall into three kinds. */
  lemma LineKinds(codec: Codec, s: Snapshot, c: Snapshot)
    requires HexHashes(codec) && Canonical(codec, s, c) && Plain(c)
    ensures forall t | t in ScopeLines(c.scopes) :: ScopeLine(t) && '\n' !in t
    ensures forall t | t in ShaLines(c.certificates) :: !ScopeLine(t) && ShaLine(t) && '\n' !in t
    ensures forall t | t in PolicyLines(c.policy) :: !ScopeLine(t) && !ShaLine(t) && '\n' !in t
  {
    forall i | 0 <= i < |c.scopes| ensures ScopeLine(ScopeLines(c.scopes)[i]) && '\n' !in ScopeLines(c.scopes)[i] {
      assert c.scopes[i] in c.scopes;
    }
    forall i | 0 <= i < |c.certificates|
      ensures var t := ShaLines(c.certificates)[i]; !ScopeLine(t) && ShaLine(t) && '\n' !in t
    {
      var x := c.certificates[i];
      assert x in c.certificates;
      LastUnderIsStandard(codec, s.certificates, x.sha);
      assert HexDigest(x.sha);
      assert HexDigit(x.sha[0]) && "scope="[0] == 's';
      assert forall j | 0 <= j < |x.sha| :: HexDigit(x.sha[j]);
    }
    forall i | 0 <= i < |c.policy|
      ensures var t := PolicyLines(c.policy)[i]; !ScopeLine(t) && !ShaLine(t) && '\n' !in t
    {
      assert c.policy[i] in c.policy;
      KeyHasNul(c.policy[i]);
    }
  }

  lemma ContentHasNoBreaks(codec: Codec, s: Snapshot, c: Snapshot)
    requires HexHashes(codec) && Canonical(codec, s, c) && Plain(c)
    ensures forall t | t in ContentLines(c) :: '\n' !in t
  {
    LineKinds(codec, s, c);
    assert '\n' !in SCHEMA && '\n' !in "hostOS=";
    forall t | t in ContentLines(c) ensures '\n' !in t {
      if t !in ScopeLines(c.scopes) && t !in ShaLines(c.certificates) && t !in PolicyLines(c.policy) {
        assert t == SCHEMA || t == "hostOS=" + c.hostOs;
      }
    }
  }

  lemma ContentParts(c: Snapshot)
    ensures var rest := ScopeLines(c.scopes) + (ShaLines(c.certificates) + PolicyLines(c.policy));
            ContentLines(c) == [SCHEMA, "hostOS=" + c.hostOs] + rest
            && ContentLines(c)[1] == "hostOS=" + c.hostOs && ContentLines(c)[2..] == rest
  {
  }

  lemma ContentDeterminesLines(codec: Codec, s: Snapshot, t: Snapshot, c: Snapshot, d: Snapshot)
    requires HexHashes(codec) && Canonical(codec, s, c) && Canonical(codec, t, d) && Plain(c) && Plain(d)
    requires Content(c) == Content(d)
    ensures c.hostOs == d.hostOs && ScopeLines(c.scopes) == ScopeLines(d.scopes)
    ensures ShaLines(c.certificates) == ShaLines(d.certificates) && PolicyLines(c.policy) == PolicyLines(d.policy)
  {
    ContentHasNoBreaks(codec, s, c);
    ContentHasNoBreaks(codec, t, d);
    LinesDetermineTexts(ContentLines(c), ContentLines(d));
    ContentParts(c);
    ContentParts(d);
    SameTail("hostOS=", c.hostOs, d.hostOs);
    LineKinds(codec, s, c);
    LineKinds(codec, t, d);
    CutsAgree(ScopeLines(c.scopes), ShaLines(c.certificates), PolicyLines(c.policy),
              ScopeLines(d.scopes), ShaLines(d.certificates), PolicyLines(d.policy));
  }

  lemma SameTail(prefix: string, a: string, b: string)
    requires prefix + a == prefix + b
    ensures a == b
  {
    assert a == (prefix + a)[|prefix|..] && b == (prefix + b)[|prefix|..];
  }

  lemma CutsAgree(a: seq<string>, b: seq<string>, c: seq<string>, x: seq<string>, y: seq<string>, z: seq<string>)
    requires (forall t | t in a :: ScopeLine(t)) && (forall t | t in x :: ScopeLine(t))
    requires (forall t | t in b :: !ScopeLine(t) && ShaLine(t)) && (forall t | t in y :: !ScopeLine(t) && ShaLine(t))
    requires (forall t | t in c :: !ScopeLine(t) && !ShaLine(t)) && (forall t | t in z :: !ScopeLine(t) && !ShaLine(t))
    requires a + (b + c) == x + (y + z)
    ensures a == x && b == y && c == z
  {
    SameCut(a, b + c, x, y + z, ScopeLine);
    SameCut(b, c, y, z, ShaLine);
  }

  lemma SameShaSameCertificate(codec: Codec, s: Snapshot, t: Snapshot, x: Certificate, y: Certificate)
    requires HashesSeparate(codec, s.certificates + t.certificates) && x.sha == y.sha
    requires LastUnder(codec, s.certificates, x.sha) == Some(x) && LastUnder(codec, t.certificates, y.sha) == Some(y)
    ensures x == y
  {
    LastUnderIsStandard(codec, s.certificates, x.sha);
    LastUnderIsStandard(codec, t.certificates, y.sha);
    var k :| k in s.certificates && Single(codec, k).Some? && Standard(codec, Single(codec, k).value) == x;
    var l :| l in t.certificates && Single(codec, l).Some? && Standard(codec, Single(codec, l).value) == y;
    assert SameHashSameRaw(codec, k, l);
  }

  lemma LinesDetermineParts(codec: Codec, s: Snapshot, t: Snapshot, c: Snapshot, d: Snapshot)
    requires HashesSeparate(codec, s.certificates + t.certificates)
    requires Canonical(codec, s, c) && Canonical(codec, t, d) && Plain(c) && Plain(d)
    requires ScopeLines(c.scopes) == ScopeLines(d.scopes)
    requires ShaLines(c.certificates) == ShaLines(d.certificates) && PolicyLines(c.policy) == PolicyLines(d.policy)
    ensures c.scopes == d.scopes && c.certificates == d.certificates && c.policy == d.policy
  {
    assert |c.scopes| == |ScopeLines(c.scopes)| && |d.scopes| == |ScopeLines(d.scopes)|;
    forall i | 0 <= i < |c.scopes| ensures c.scopes[i] == d.scopes[i] {
      assert ScopeLines(c.scopes)[i][6..] == c.scopes[i] && ScopeLines(d.scopes)[i][6..] == d.scopes[i];
    }
    assert |c.certificates| == |ShaLines(c.certificates)| && |d.certificates| == |ShaLines(d.certificates)|;
    forall i | 0 <= i < |c.certificates| ensures c.certificates[i] == d.certificates[i] {
      assert ShaLines(c.certificates)[i] == c.certificates[i].sha && ShaLines(d.certificates)[i] == d.certificates[i].sha;
      assert c.certificates[i] in c.certificates && d.certificates[i] in d.certificates;
      SameShaSameCertificate(codec, s, t, c.certificates[i], d.certificates[i]);
    }
    assert |c.policy| == |PolicyLines(c.policy)| && |d.policy| == |PolicyLines(d.policy)|;
    forall i | 0 <= i < |c.policy| ensures c.policy[i] == d.policy[i] {
      assert PolicyLines(c.policy)[i] == Key(c.policy[i]) && PolicyLines(d.policy)[i] == Key(d.policy[i]);
      assert c.policy[i] in c.policy && d.policy[i] in d.policy;
      CleanKeysSeparate([c.policy[i], d.policy[i]]);
    }
  }

  /** For plain texts the generation names exactly the host, the scopes, the
      certificates and the policy, unless the two texts or two of the given
      certificates collide. */
  lemma GenerationNamesContent(codec: Codec, s: Snapshot, t: Snapshot, c: Snapshot, d: Snapshot)
    requires HexHashes(codec) && Canonical(codec, s, c) && Canonical(codec, t, d) && Plain(c) && Plain(d)
    requires HashesSeparate(codec, s.certificates + t.certificates)
    requires codec.digest(Content(c)) == codec.digest(Content(d)) ==> Content(c) == Content(d)
    ensures c.generation == d.generation
            <==> c.hostOs == d.hostOs && c.scopes == d.scopes && c.certificates == d.certificates && c.policy == d.policy
  {
    if c.generation == d.generation {
      ContentDeterminesLines(codec, s, t, c, d);
      LinesDetermineParts(codec, s, t, c, d);
    }
  }

  /** A line break in the host name can stand for a scope: two snapshots that
      differ in both then share a generation. */
  lemma LineBreakForgesScope(codec: Codec, c: Snapshot, d: Snapshot, host: string, scope: string)
    requires c.generation == codec.digest(Content(c)) && d.generation == codec.digest(Content(d))
    requires c.hostOs == host + "\nscope=" + scope && c.scopes == [] && d.hostOs == host && d.scopes == [scope]
    requires c.certificates == d.certificates && c.policy == d.policy
    ensures c.generation == d.generation && c.scopes != d.scopes
  {
    var rest := ShaLines(c.certificates) + PolicyLines(c.policy);
    ForgedLines(host, scope, rest);
    ContentWithoutScopes(c, rest);
    ContentWithScope(d, scope, rest);
  }

  lemma ContentWithoutScopes(c: Snapshot, rest: seq<string>)
    requires c.scopes == [] && rest == ShaLines(c.certificates) + PolicyLines(c.policy)
    ensures ContentLines(c) == [SCHEMA, "hostOS=" + c.hostOs] + rest
  {
    ContentParts(c);
    assert ScopeLines(c.scopes) + rest == rest;
  }

  lemma ContentWithScope(c: Snapshot, scope: string, rest: seq<string>)
    requires c.scopes == [scope] && rest == ShaLines(c.certificates) + PolicyLines(c.policy)
    ensures ContentLines(c) == [SCHEMA, "hostOS=" + c.hostOs, "scope=" + scope] + rest
  {
    ContentParts(c);
    assert ScopeLines(c.scopes) == ["scope=" + scope];
  }

  lemma ForgedLines(host: string, scope: string, rest: seq<string>)
    ensures Lines([SCHEMA, "hostOS=" + (host + "\nscope=" + scope)] + rest) == Lines([SCHEMA, "hostOS=" + host, "scope=" + scope] + rest)
  {
    var one, two, three := "hostOS=" + (host + "\nscope=" + scope), "hostOS=" + host, "scope=" + scope;
    LinesOfSum([SCHEMA, one], rest);
    LinesOfSum([SCHEMA, two, three], rest);
    FewLines(SCHEMA, one, "");
    FewLines(SCHEMA, two, three);
    assert one + "\n" == two + "\n" + (three + "\n");
  }

  lemma FewLines(a: string, b: string, c: string)
    ensures Lines([a, b]) == a + "\n" + (b + "\n")
    ensures Lines([a, b, c]) == a + "\n" + (b + "\n" + (c + "\n"))
  {
    assert [a, b, c][1..] == [b, c] && [a, b][1..] == [b] && [b, c][1..] == [c] && [b][1..] == [] && [c][1..] == [];
    assert Lines([b]) == b + "\n" && Lines([c]) == c + "\n";
    assert Lines([b, c]) == b + "\n" + (c + "\n");
  }

  lemma {:induction false} LinesOfSum(a: seq<string>, b: seq<string>)
    ensures Lines(a + b) == Lines(a) + Lines(b)
  {
    if a == [] {
      assert a + b == b;
    } else {
      LinesOfSum(a[1..], b);
      assert (a + b)[1..] == a[1..] + b;
    }
  }
}
