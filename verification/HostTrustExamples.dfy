/** Two snapshots that meet every hypothesis under which a generation names its
    content. */
module HostTrustExamples {
  import opened HostTrustCanonical
  import opened Splitting
  import opened Text
  import opened Wrappers

  /** 64 equal digits that tell short texts of different lengths apart. */
  function ByLength(text: string): string {
    var digit := ('0' as int + |text| % 10) as char;
    seq(64, i => digit)
  }

  lemma ByLengthTells(a: string, b: string)
    ensures HexDigest(ByLength(a))
    ensures ByLength(a) == ByLength(b) <==> |a| % 10 == |b| % 10
  {
    assert ByLength(a)[0] == ('0' as int + |a| % 10) as char && ByLength(b)[0] == ('0' as int + |b| % 10) as char;
  }

  function Example(): Codec {
    Codec(p => Some([p]), r => r, ByLength, ByLength, c => c)
  }

  lemma ExampleIsSound()
    ensures HexHashes(Example()) && Stable(Example())
  {
    forall a ensures HexDigest(Example().hash(a)) { ByLengthTells(a, a); }
  }

  function OneCertificate(host: string, pem: string): Snapshot {
    Snapshot("", host, [], [Certificate("", pem, "")], [], [])
  }

  function OneCanonical(host: string, pem: string): Snapshot {
    var c := Snapshot("", host, [], [Standard(Example(), pem)], [], []);
    c.(generation := ByLength(Content(c)))
  }

  lemma OneIsSingle(pem: string)
    ensures Single(Example(), Certificate("", pem, "")) == Some(pem)
  {
  }

  lemma OneIsCanonical(host: string, pem: string)
    requires TrimSpace(host) == host
    ensures Canonical(Example(), OneCertificate(host, pem), OneCanonical(host, pem))
  {
    var given := Certificate("", pem, "");
    OneIsSingle(pem);
    assert Lower(Example(), host) == host;
    forall x ensures x in [Standard(Example(), pem)] <==> LastUnder(Example(), [given], x.sha) == Some(x) {
      assert Last([given]) == given && LastUnder(Example(), [], x.sha) == None;
    }
  }

  lemma OneIsPlain(host: string, pem: string)
    requires '\n' !in host
    ensures Plain(OneCanonical(host, pem))
  {
  }

  lemma ContentOfOne(c: Snapshot)
    requires c.scopes == [] && |c.certificates| == 1 && c.policy == []
    ensures |Content(c)| == |SCHEMA| + |c.hostOs| + |c.certificates[0].sha| + 10
  {
    ContentParts(c);
    assert ShaLines(c.certificates) == [c.certificates[0].sha] && ScopeLines(c.scopes) == [] && PolicyLines(c.policy) == [];
    assert ContentLines(c) == [SCHEMA, "hostOS=" + c.hostOs, c.certificates[0].sha];
    FewLines(SCHEMA, "hostOS=" + c.hostOs, c.certificates[0].sha);
  }

  lemma TwoAreSeparate(p: string, q: string)
    requires |p| % 10 != |q| % 10
    ensures HashesSeparate(Example(), [Certificate("", p, "")] + [Certificate("", q, "")])
  {
    OneIsSingle(p);
    OneIsSingle(q);
    ByLengthTells(p, q);
  }

  lemma OneContent(host: string, pem: string)
    ensures |Content(OneCanonical(host, pem))| == |SCHEMA| + |host| + 74
  {
    ContentOfOne(OneCanonical(host, pem));
  }

  lemma TwoGenerations(g: string, p: string, h: string, q: string)
    requires |p| % 10 != |q| % 10 && |g| % 10 != |h| % 10
    ensures ByLength(Content(OneCanonical(g, p))) != ByLength(Content(OneCanonical(h, q)))
    ensures OneCanonical(g, p).certificates[0] != OneCanonical(h, q).certificates[0]
  {
    OneContent(g, p);
    OneContent(h, q);
    ByLengthTells(p, q);
    ByLengthTells(Content(OneCanonical(g, p)), Content(OneCanonical(h, q)));
  }

  /** Any two hosts and any two certificates with different digests do. */
  lemma HypothesesCanBeMet(g: string, p: string, h: string, q: string)
      returns (codec: Codec, s: Snapshot, t: Snapshot, c: Snapshot, d: Snapshot)
    requires |p| % 10 != |q| % 10 && |g| % 10 != |h| % 10
    requires TrimSpace(g) == g && TrimSpace(h) == h && '\n' !in g && '\n' !in h
    ensures HexHashes(codec) && Stable(codec)
    ensures Canonical(codec, s, c) && Canonical(codec, t, d) && Plain(c) && Plain(d)
    ensures HashesSeparate(codec, s.certificates + t.certificates)
    ensures codec.digest(Content(c)) != codec.digest(Content(d)) && c.certificates != d.certificates
  {
    codec, s, t := Example(), OneCertificate(g, p), OneCertificate(h, q);
    c, d := OneCanonical(g, p), OneCanonical(h, q);
    ExampleIsSound();
    OneIsCanonical(g, p);
    OneIsCanonical(h, q);
    OneIsPlain(g, p);
    OneIsPlain(h, q);
    TwoAreSeparate(p, q);
    TwoGenerations(g, p, h, q);
  }
}
