/** Pairs of different archives that meet every hypothesis under which the
    accepted digest determines the image, one pair of each form. */
module ArchiveExamples {
  import opened ArchiveNames
  import opened Splitting
  import opened TemplateArchive
  import opened Text
  import opened Wrappers

  function Zeros(length: nat): Bytes {
    seq(length, i => 0)
  }

  function FileOf(name: string, length: nat): Entry {
    Entry(name, Regular, length, Zeros(length))
  }

  function Described(digest: Bytes -> string, length: nat): Descriptor {
    Descriptor(digest(Zeros(length)), length, map[SHORT_TAG := "t"], None)
  }

  /** The digest tells short runs of zeros apart. */
  ghost predicate TellsApart(digest: Bytes -> string) {
    && (forall b :: ValidSha256(digest(b)))
    && forall i: nat, j: nat | i < j < 6 :: digest(Zeros(i)) != digest(Zeros(j))
  }

  /** Decoders that read the runs of zeros as the documents of an image with
      manifest, configuration and one layer, of lengths 3, 4 and 5. */
  function Example(digest: Bytes -> string): Codec {
    Codec(digest, b => Some([]), b => Some("1.0.0"), b => Some(Index(2, [Described(digest, 3)])),
          b => Some(Manifest(2, Described(digest, 4), [Described(digest, 5)])),
          b => Some(Config("linux/amd64", map[], [digest([])])),
          b => Some([SaveEntry(digest(Zeros(4)), ["r:t"], ["layer.tar.gz"])]))
  }

  ghost predicate Reads(codec: Codec, m: nat, c: nat, l: nat) {
    && codec.layout(Zeros(1)) == Some("1.0.0")
    && codec.index(Zeros(2)) == Some(Index(2, [Described(codec.digest, m)]))
    && codec.manifest(Zeros(m)) == Some(Manifest(2, Described(codec.digest, c), [Described(codec.digest, l)]))
    && codec.config(Zeros(c)) == Some(Config("linux/amd64", map[], [codec.digest([])]))
    && codec.save(Zeros(1)) == Some([SaveEntry(codec.digest(Zeros(c)), ["r:t"], ["layer.tar.gz"])])
    && codec.gunzip(Zeros(l)) == Some([])
  }

  function Wanted(digest: string): Expectation {
    Expectation("r:t", "linux/amd64", map[], digest)
  }

  // -------------------------------------------------------------------- names

  lemma NameIsSafe(name: string)
    requires name != "" && Last(name) != '/' && '\0' !in name && '\\' !in name
    requires forall p | p in Split(name, '/') :: Ordinary(p)
    ensures SafeArchiveName(name) == Some(name)
  {
    assert TrimSuffix(name, "/") == name;
    SafeNamesHaveOrdinaryParts(name);
  }

  lemma SimpleNameIsSafe(name: string)
    requires Ordinary(name) && '/' !in name && '\0' !in name && '\\' !in name
    ensures SafeArchiveName(name) == Some(name)
  {
    SplitWithout(name, '/');
    assert Last(name) in name;
    NameIsSafe(name);
  }

  lemma SplitThree(a: string, b: string, c: string)
    requires '/' !in a && '/' !in b && '/' !in c
    ensures Split(a + ['/'] + (b + ['/'] + c), '/') == [a, b, c]
  {
    SplitAtSeparator(a, b + ['/'] + c, '/');
    SplitAtSeparator(b, c, '/');
    SplitWithout(a, '/');
    SplitWithout(b, '/');
    SplitWithout(c, '/');
  }

  lemma SplitBlob(hex: string)
    requires '/' !in hex
    ensures Split("blobs/sha256/" + hex, '/') == ["blobs", "sha256", hex]
  {
    SplitThree("blobs", "sha256", hex);
    assert "blobs/sha256/" + hex == "blobs" + ['/'] + ("sha256" + ['/'] + hex);
  }

  lemma DigitsOf(digest: string)
    requires ValidSha256(digest)
    ensures Blob(digest) == "blobs/sha256/" + digest[7..] && |digest[7..]| == 64
    ensures forall c | c in digest[7..] :: HexDigit(c)
    ensures digest == "sha256:" + digest[7..]
  {
    assert forall i | 0 <= i < 64 :: digest[7..][i] == digest[7 + i];
    assert "sha256:" == digest[..7];
  }

  lemma BlobNameIsSafe(digest: string)
    requires ValidSha256(digest)
    ensures SafeArchiveName(Blob(digest)) == Some(Blob(digest))
  {
    DigitsOf(digest);
    var hex := digest[7..];
    SplitBlob(hex);
    assert Last("blobs/sha256/" + hex) == Last(hex) && Last(hex) in hex;
    NameIsSafe("blobs/sha256/" + hex);
  }

  lemma DigestIsOneName(digest: string)
    requires ValidSha256(digest)
    ensures '/' !in digest && '\0' !in digest && '\\' !in digest && HexDigit(Last(digest))
  {
    DigitsOf(digest);
    var hex := digest[7..];
    assert forall c | c in "sha256:" + hex :: c in "sha256:" || HexDigit(c);
    assert Last(digest) == Last(hex) && Last(hex) in hex;
  }

  lemma DigestNameIsSafe(digest: string)
    requires ValidSha256(digest)
    ensures SafeArchiveName(digest) == Some(digest)
  {
    DigestIsOneName(digest);
    SimpleNameIsSafe(digest);
  }

  lemma DigestIsPromised(digest: string)
    requires ValidSha256(digest)
    ensures PromisedDigest(digest) == digest
  {
    DigestIsOneName(digest);
    SplitWithout(digest, '/');
  }

  lemma BlobsDiffer(a: string, b: string)
    requires ValidSha256(a) && ValidSha256(b) && a != b
    ensures Blob(a) != Blob(b) && |Blob(a)| == 77
  {
    DigitsOf(a);
    DigitsOf(b);
    assert |"blobs/sha256/"| == 13 && Blob(a)[13..] == a[7..] && Blob(b)[13..] == b[7..];
  }

  // ------------------------------------------------------------ both archives

  lemma {:induction false} Found(entries: seq<Entry>, i: nat)
    requires i < |entries| && Distinct(entries)
    ensures Find(entries, Name(entries[i])) == Some(entries[i])
  {
    if i < |entries| - 1 {
      assert Distinct(Front(entries));
      Found(Front(entries), i);
    }
  }

  lemma {:induction false} FewControlBytes(entries: seq<Entry>)
    requires forall e | e in entries :: ControlSize(e) <= 16
    ensures ControlBytes(entries) <= 16 * |entries|
  {
    if entries != [] {
      FewControlBytes(Front(entries));
    }
  }

  /** Names that an archive may carry unchanged. */
  ghost predicate SafeNames(safe: set<string>) {
    forall n {:trigger SafeArchiveName(n)} | n in safe :: SafeArchiveName(n) == Some(n)
  }

  /** A file of zeros under a safe name, which unpacks to nothing. */
  ghost predicate Plain(codec: Codec, safe: set<string>, e: Entry) {
    && e.name in safe
    && |e.content| < 6 && e == FileOf(e.name, |e.content|)
    && (Compressed(e.name, e.size) ==> codec.gunzip(e.content) == Some([]))
  }

  ghost predicate Small(codec: Codec, safe: set<string>, entries: seq<Entry>) {
    && |entries| < 6
    && (forall e | e in entries :: Plain(codec, safe, e))
    && forall i, j | 0 <= i < j < |entries| :: entries[i].name != entries[j].name
  }

  lemma PlainIsSafe(codec: Codec, safe: set<string>, e: Entry)
    requires SafeNames(safe) && Plain(codec, safe, e)
    ensures Safe(codec, e) && Name(e) == e.name && ControlSize(e) <= 16
  {
  }

  lemma SmallIsAdmissible(codec: Codec, safe: set<string>, entries: seq<Entry>)
    requires SafeNames(safe) && Small(codec, safe, entries)
    ensures Admissible(codec, entries)
  {
    forall e | e in entries ensures Safe(codec, e) && Name(e) == e.name && ControlSize(e) <= 16 { PlainIsSafe(codec, safe, e); }
    FewControlBytes(entries);
  }

  /** The record of a file under its name. */
  lemma Recorded(codec: Codec, safe: set<string>, entries: seq<Entry>, e: Entry)
    requires SafeNames(safe) && Small(codec, safe, entries) && e in entries
    ensures AllSafe(codec, entries) && Readable(codec, e.name, e)
    ensures e.name in FilesOf(codec, entries)
    ensures FilesOf(codec, entries)[e.name] == Record(codec, e.name, e)
  {
    SmallIsAdmissible(codec, safe, entries);
    PlainIsSafe(codec, safe, e);
    var i :| 0 <= i < |entries| && entries[i] == e;
    Found(entries, i);
    FilesAreFound(codec, entries, e.name);
  }

  lemma SmallDoNotCollide(codec: Codec, safe: set<string>, a: seq<Entry>, b: seq<Entry>)
    requires TellsApart(codec.digest) && SafeNames(safe) && Small(codec, safe, a) && Small(codec, safe, b)
    ensures CollisionFree(codec, a, b)
  {
    forall p, q | Hashed(codec, a, p) && Hashed(codec, b, q) && codec.digest(p) == codec.digest(q) ensures p == q {
      HashedZeros(codec, safe, a, p);
      HashedZeros(codec, safe, b, q);
    }
  }

  lemma HashedZeros(codec: Codec, safe: set<string>, entries: seq<Entry>, content: Bytes)
    requires SafeNames(safe) && Small(codec, safe, entries) && Hashed(codec, entries, content)
    ensures content == Zeros(|content|) && |content| < 6
  {
    var e :| e in entries && Hashes(codec, e, content);
    PlainIsSafe(codec, safe, e);
    assert content == [] || content == e.content;
  }

  // -------------------------------------------------------------- OCI layouts

  /** An index, its layout file and three blobs, in any order. */
  ghost predicate OciFiles(codec: Codec, entries: seq<Entry>, m: nat, c: nat, l: nat) {
    && FileOf("oci-layout", 1) in entries && FileOf("index.json", 2) in entries
    && (forall k | k == m || k == c || k == l :: FileOf(Blob(codec.digest(Zeros(k))), k) in entries)
  }

  lemma BlobIsDescribed(codec: Codec, safe: set<string>, entries: seq<Entry>, k: nat)
    requires TellsApart(codec.digest) && SafeNames(safe) && Small(codec, safe, entries)
    requires FileOf(Blob(codec.digest(Zeros(k))), k) in entries
    ensures AllSafe(codec, entries) && TemplateArchive.Described(FilesOf(codec, entries), Described(codec.digest, k))
    ensures FilesOf(codec, entries)[Blob(codec.digest(Zeros(k)))].data == Some(Zeros(k))
  {
    var e := FileOf(Blob(codec.digest(Zeros(k))), k);
    DigitsOf(codec.digest(Zeros(k)));
    assert HasPrefix(e.name, "blobs/sha256/");
    Recorded(codec, safe, entries, e);
  }

  lemma ExampleIsTagged(digest: Bytes -> string, k: nat)
    ensures OnlyTagged([Described(digest, k)], "r:t", Described(digest, k))
  {
    var d := Described(digest, k);
    assert After("r:t", ':') == "t" && Lookup(d.annotations, SHORT_TAG) == "t" && Lookup(d.annotations, FULL_NAME) == "";
    assert [d][0] == d && Tagged(d, "r:t");
  }

  lemma ControlIsRead(codec: Codec, safe: set<string>, entries: seq<Entry>, name: string, k: nat)
    requires SafeNames(safe) && Small(codec, safe, entries) && FileOf(name, k) in entries && Captured(name, k)
    ensures AllSafe(codec, entries) && Data(FilesOf(codec, entries), name) == Some(Zeros(k))
  {
    Recorded(codec, safe, entries, FileOf(name, k));
  }

  lemma ChainHolds(codec: Codec, files: map<string, File>, m: nat, c: nat, l: nat)
    requires Reads(codec, m, c, l)
    requires forall k | k == m || k == c || k == l :: BlobIs(codec, files, k)
    ensures Chain(codec, files, Wanted(codec.digest(Zeros(m))), Described(codec.digest, m))
  {
    assert BlobIs(codec, files, m) && BlobIs(codec, files, c) && BlobIs(codec, files, l);
  }

  ghost predicate BlobIs(codec: Codec, files: map<string, File>, k: nat) {
    TemplateArchive.Described(files, Described(codec.digest, k)) && files[Blob(codec.digest(Zeros(k)))].data == Some(Zeros(k))
  }

  lemma OciIsRead(codec: Codec, files: map<string, File>, m: nat, c: nat, l: nat)
    requires Reads(codec, m, c, l) && Data(files, "oci-layout") == Some(Zeros(1)) && Data(files, "index.json") == Some(Zeros(2))
    requires forall k | k == m || k == c || k == l :: BlobIs(codec, files, k)
    ensures AcceptsOci(codec, files, Wanted(codec.digest(Zeros(m))), codec.digest(Zeros(m)))
  {
    ChainHolds(codec, files, m, c, l);
    ExampleIsTagged(codec.digest, m);
  }

  lemma OciIsAccepted(codec: Codec, safe: set<string>, entries: seq<Entry>, m: nat, c: nat, l: nat)
    requires TellsApart(codec.digest) && Reads(codec, m, c, l) && SafeNames(safe) && Small(codec, safe, entries) && OciFiles(codec, entries, m, c, l)
    ensures AcceptedOci(codec, entries, Wanted(codec.digest(Zeros(m))))
  {
    SmallIsAdmissible(codec, safe, entries);
    ControlIsRead(codec, safe, entries, "oci-layout", 1);
    ControlIsRead(codec, safe, entries, "index.json", 2);
    forall k | k == m || k == c || k == l ensures BlobIs(codec, FilesOf(codec, entries), k) {
      BlobIsDescribed(codec, safe, entries, k);
    }
    OciIsRead(codec, FilesOf(codec, entries), m, c, l);
  }

  // ---------------------------------------------------------- Docker archives

  /** A manifest, a configuration named by its digest and a compressed layer. */
  ghost predicate SaveFiles(codec: Codec, entries: seq<Entry>, c: nat, l: nat) {
    && FileOf("manifest.json", 1) in entries && FileOf(codec.digest(Zeros(c)), c) in entries
    && FileOf("layer.tar.gz", l) in entries
  }

  lemma SaveIsRead(codec: Codec, files: map<string, File>, m: nat, c: nat, l: nat)
    requires TellsApart(codec.digest) && Reads(codec, m, c, l) && Data(files, "manifest.json") == Some(Zeros(1))
    requires var name := codec.digest(Zeros(c)); name in files && files[name].data == Some(Zeros(c)) && files[name].digest == name
    requires "layer.tar.gz" in files && files["layer.tar.gz"].diffId == codec.digest([])
    ensures AcceptsSave(codec, files, Wanted(codec.digest(Zeros(c))), codec.digest(Zeros(c)))
  {
    DigestIsPromised(codec.digest(Zeros(c)));
    assert ValidSha256(codec.digest([]));
  }

  lemma SaveIsAccepted(codec: Codec, safe: set<string>, entries: seq<Entry>, m: nat, c: nat, l: nat)
    requires TellsApart(codec.digest) && Reads(codec, m, c, l) && SafeNames(safe) && Small(codec, safe, entries) && SaveFiles(codec, entries, c, l)
    ensures AcceptedSave(codec, entries, Wanted(codec.digest(Zeros(c))))
  {
    SmallIsAdmissible(codec, safe, entries);
    ControlIsRead(codec, safe, entries, "manifest.json", 1);
    ControlIsRead(codec, safe, entries, codec.digest(Zeros(c)), c);
    Recorded(codec, safe, entries, FileOf(codec.digest(Zeros(c)), c));
    LayerIsCompressed(l);
    LayerIsUnpacked(codec, safe, entries, "layer.tar.gz", l);
    SaveIsRead(codec, FilesOf(codec, entries), m, c, l);
  }

  lemma LayerIsUnpacked(codec: Codec, safe: set<string>, entries: seq<Entry>, name: string, l: nat)
    requires SafeNames(safe) && Small(codec, safe, entries) && FileOf(name, l) in entries && Compressed(name, l) && codec.gunzip(Zeros(l)) == Some([])
    ensures AllSafe(codec, entries) && name in FilesOf(codec, entries)
    ensures FilesOf(codec, entries)[name].diffId == codec.digest([])
  {
    Recorded(codec, safe, entries, FileOf(name, l));
  }

  lemma LayerIsCompressed(l: nat)
    ensures Compressed("layer.tar.gz", l)
  {
  }

  // ------------------------------------------------------- all hypotheses hold

  lemma AddName(safe: set<string>, name: string)
    requires SafeNames(safe) && Ordinary(name) && '/' !in name && '\0' !in name && '\\' !in name
    ensures SafeNames(safe + {name})
  {
    SimpleNameIsSafe(name);
  }

  lemma AddDigest(safe: set<string>, digest: string)
    requires SafeNames(safe) && ValidSha256(digest)
    ensures SafeNames(safe + {digest, Blob(digest)})
  {
    DigestNameIsSafe(digest);
    BlobNameIsSafe(digest);
  }

  /** The names of both examples. */
  ghost function ExampleNames(digest: Bytes -> string): set<string> {
    {} + {"oci-layout"} + {"index.json"} + {"manifest.json"} + {"layer.tar.gz"}
    + {digest(Zeros(3)), Blob(digest(Zeros(3)))} + {digest(Zeros(4)), Blob(digest(Zeros(4)))}
    + {digest(Zeros(5)), Blob(digest(Zeros(5)))}
  }

  lemma ExampleNamesAreSafe(digest: Bytes -> string)
    requires TellsApart(digest)
    ensures SafeNames(ExampleNames(digest))
  {
    var safe: set<string> := {};
    AddName(safe, "oci-layout");
    safe := safe + {"oci-layout"};
    AddName(safe, "index.json");
    safe := safe + {"index.json"};
    AddName(safe, "manifest.json");
    safe := safe + {"manifest.json"};
    AddName(safe, "layer.tar.gz");
    safe := safe + {"layer.tar.gz"};
    AddDigest(safe, digest(Zeros(3)));
    safe := safe + {digest(Zeros(3)), Blob(digest(Zeros(3)))};
    AddDigest(safe, digest(Zeros(4)));
    safe := safe + {digest(Zeros(4)), Blob(digest(Zeros(4)))};
    AddDigest(safe, digest(Zeros(5)));
  }

  lemma FiveAreSmall(codec: Codec, safe: set<string>, a: Entry, b: Entry, c: Entry, d: Entry, e: Entry)
    requires Plain(codec, safe, a) && Plain(codec, safe, b) && Plain(codec, safe, c) && Plain(codec, safe, d) && Plain(codec, safe, e)
    requires a.name != b.name && a.name != c.name && a.name != d.name && a.name != e.name
    requires b.name != c.name && b.name != d.name && b.name != e.name
    requires c.name != d.name && c.name != e.name && d.name != e.name
    ensures Small(codec, safe, [a, b, c, d, e])
  {
    var names := [a.name, b.name, c.name, d.name, e.name];
    assert forall i, j | 0 <= i < j < 5 :: names[i] != names[j];
    assert forall i | 0 <= i < 5 :: [a, b, c, d, e][i].name == names[i];
  }

  /** For every digest that tells the contents apart there are decoders and two
      different layouts with one layer that are accepted under one digest. */
  lemma OciHypothesesCanBeMet(digest: Bytes -> string) returns (codec: Codec, a: seq<Entry>, b: seq<Entry>, x: Expectation)
    requires TellsApart(digest)
    ensures codec.digest == digest && a != b
    ensures WellFormed(codec) && CollisionFree(codec, a, b) && AcceptedOci(codec, a, x) && AcceptedOci(codec, b, x)
  {
    codec := Example(digest);
    var safe := ExampleNames(digest);
    ExampleNamesAreSafe(digest);
    var layout, index := FileOf("oci-layout", 1), FileOf("index.json", 2);
    var m, c, l := FileOf(Blob(digest(Zeros(3))), 3), FileOf(Blob(digest(Zeros(4))), 4), FileOf(Blob(digest(Zeros(5))), 5);
    BlobsDiffer(digest(Zeros(3)), digest(Zeros(4)));
    BlobsDiffer(digest(Zeros(3)), digest(Zeros(5)));
    BlobsDiffer(digest(Zeros(4)), digest(Zeros(5)));
    a, b, x := [layout, index, m, c, l], [index, layout, l, m, c], Wanted(digest(Zeros(3)));
    FiveAreSmall(codec, safe, layout, index, m, c, l);
    FiveAreSmall(codec, safe, index, layout, l, m, c);
    SmallDoNotCollide(codec, safe, a, b);
    OciIsAccepted(codec, safe, a, 3, 4, 5);
    OciIsAccepted(codec, safe, b, 3, 4, 5);
  }

  lemma ThreeAreSmall(codec: Codec, safe: set<string>, a: Entry, b: Entry, c: Entry)
    requires Plain(codec, safe, a) && Plain(codec, safe, b) && Plain(codec, safe, c)
    requires a.name != b.name && a.name != c.name && b.name != c.name
    ensures Small(codec, safe, [a, b, c])
  {
  }

  lemma SaveHypothesesCanBeMet(digest: Bytes -> string) returns (codec: Codec, a: seq<Entry>, b: seq<Entry>, x: Expectation)
    requires TellsApart(digest)
    ensures codec.digest == digest && a != b
    ensures WellFormed(codec) && CollisionFree(codec, a, b) && AcceptedSave(codec, a, x) && AcceptedSave(codec, b, x)
  {
    codec := Example(digest);
    var manifest, config, layer := FileOf("manifest.json", 1), FileOf(digest(Zeros(4)), 4), FileOf("layer.tar.gz", 5);
    var safe := ExampleNames(digest);
    ExampleNamesAreSafe(digest);
    DigestIsOneName(digest(Zeros(4)));
    a, b, x := [manifest, config, layer], [layer, manifest, config], Wanted(digest(Zeros(4)));
    ThreeAreSmall(codec, safe, manifest, config, layer);
    ThreeAreSmall(codec, safe, layer, manifest, config);
    SmallDoNotCollide(codec, safe, a, b);
    SaveIsAccepted(codec, safe, a, 3, 4, 5);
    SaveIsAccepted(codec, safe, b, 3, 4, 5);
  }

  /** A digest that tells apart contents of different lengths. */
  function ByLength(content: Bytes): string {
    var last := ('0' as int + |content| % 10) as char;
    "sha256:" + seq(64, i => last)
  }

  lemma ByLengthIsValid(content: Bytes)
    ensures ValidSha256(ByLength(content)) && ByLength(content)[7] == ('0' as int + |content| % 10) as char
  {
    assert |"sha256:"| == 7;
  }

  lemma SomeDigestTellsApart()
    ensures TellsApart(ByLength)
  {
    forall b: Bytes ensures ValidSha256(ByLength(b)) { ByLengthIsValid(b); }
    forall i: nat, j: nat | i < j < 6 ensures ByLength(Zeros(i)) != ByLength(Zeros(j)) {
      ByLengthIsValid(Zeros(i));
      ByLengthIsValid(Zeros(j));
      assert |Zeros(i)| % 10 == i && |Zeros(j)| % 10 == j;
    }
  }
}
