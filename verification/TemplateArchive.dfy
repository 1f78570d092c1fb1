/** Verification of a sandbox template archive: what a scan admits, and how the
    accepted digest determines the image. */
module TemplateArchive {
  import opened ArchiveNames
  import opened Splitting
  import opened Text
  import opened Wrappers

  type Bytes = seq<bv8>

  const MAX_ENTRIES := 100000
  const MAX_FILE := 0x100_0000
  const MAX_CONTROL := 0x400_0000

  // -------------------------------------------------- hashing and decoding

  datatype Descriptor = Descriptor(digest: string, size: nat, annotations: map<string, string>,
                                   platform: Option<string>)
  datatype Index = Index(schemaVersion: int, manifests: seq<Descriptor>)
  datatype Manifest = Manifest(schemaVersion: int, config: Descriptor, layers: seq<Descriptor>)
  datatype Config = Config(platform: string, labels: map<string, string>, diffIds: seq<string>)
  datatype SaveEntry = SaveEntry(config: string, repoTags: seq<string>, layers: seq<string>)

  /** The functions of bytes that the verifier calls: the SHA-256 digest as
      text, decompression, and one JSON decoder for each document. */
  datatype Codec = Codec(digest: Bytes -> string, gunzip: Bytes -> Option<Bytes>, layout: Bytes -> Option<string>,
                         index: Bytes -> Option<Index>, manifest: Bytes -> Option<Manifest>,
                         config: Bytes -> Option<Config>, save: Bytes -> Option<seq<SaveEntry>>)

  predicate HexDigit(c: char) {
    '0' <= c <= '9' || 'a' <= c <= 'f'
  }

  predicate ValidSha256(s: string) {
    |s| == 71 && HasPrefix(s, "sha256:") && forall i | 7 <= i < 71 :: HexDigit(s[i])
  }

  /** Every digest has the form of a SHA-256 digest. */
  ghost predicate WellFormed(codec: Codec) {
    forall b :: ValidSha256(codec.digest(b))
  }

  // ------------------------------------------------------------------- scan

  datatype Kind = Directory | Regular | Other

  /** One tar entry; `content` is what can be read of it. */
  datatype Entry = Entry(name: string, kind: Kind, size: int, content: Bytes)

  datatype File = File(digest: string, diffId: string, size: int, data: Option<Bytes>)

  predicate Captured(name: string, size: int) {
    && size <= MAX_FILE
    && (name == "manifest.json" || name == "index.json" || name == "oci-layout" || ValidSha256(name)
        || HasSuffix(name, ".json") || HasPrefix(name, "blobs/sha256/"))
  }

  predicate Compressed(name: string, size: int) {
    !Captured(name, size) && HasSuffix(name, ".tar.gz")
  }

  predicate Readable(codec: Codec, name: string, e: Entry) {
    0 <= e.size == |e.content| && (Compressed(name, e.size) ==> codec.gunzip(e.content).Some?)
  }

  function Record(codec: Codec, name: string, e: Entry): File
    requires e.kind.Regular? ==> Readable(codec, name, e)
  {
    if !e.kind.Regular? then File("", "", 0, None)
    else if Captured(name, e.size) then File(codec.digest(e.content), "", e.size, Some(e.content))
    else if Compressed(name, e.size) then File(codec.digest(e.content), codec.digest(codec.gunzip(e.content).value), e.size, None)
    else File(codec.digest(e.content), "", e.size, None)
  }

  predicate Safe(codec: Codec, e: Entry) {
    && SafeArchiveName(e.name).Some?
    && !e.kind.Other?
    && (e.kind.Regular? ==> Readable(codec, Name(e), e))
  }

  ghost predicate AllSafe(codec: Codec, entries: seq<Entry>) {
    forall i | 0 <= i < |entries| :: Safe(codec, entries[i])
  }

  function Name(e: Entry): string {
    if SafeArchiveName(e.name).Some? then SafeArchiveName(e.name).value else ""
  }

  function ControlSize(e: Entry): int {
    if e.kind.Regular? && Captured(Name(e), e.size) then e.size else 0
  }

  function ControlBytes(entries: seq<Entry>): int {
    if entries == [] then 0 else ControlBytes(Front(entries)) + ControlSize(Last(entries))
  }

  ghost predicate Distinct(entries: seq<Entry>) {
    forall i, j | 0 <= i < j < |entries| :: Name(entries[i]) != Name(entries[j])
  }

  /** What an archive must be to pass the scan: every entry a readable file or
      directory under its own safe name, and both limits kept. */
  ghost predicate Admissible(codec: Codec, entries: seq<Entry>) {
    && |entries| < MAX_ENTRIES
    && AllSafe(codec, entries)
    && Distinct(entries)
    && ControlBytes(entries) <= MAX_CONTROL
  }

  function Find(entries: seq<Entry>, name: string): Option<Entry> {
    if entries == [] then None
    else if Name(Last(entries)) == name then Some(Last(entries))
    else Find(Front(entries), name)
  }

  ghost function FilesOf(codec: Codec, entries: seq<Entry>): map<string, File>
    requires AllSafe(codec, entries)
  {
    if entries == [] then map[]
    else
      FilesOf(codec, Front(entries))[Name(Last(entries)) := Record(codec, Name(Last(entries)), Last(entries))]
  }

  lemma {:induction false} FilesAreFound(codec: Codec, entries: seq<Entry>, name: string)
    requires AllSafe(codec, entries)
    ensures name in FilesOf(codec, entries) <==> Find(entries, name).Some?
    ensures match Find(entries, name)
            case None => true
            case Some(e) => e in entries && Name(e) == name && FilesOf(codec, entries)[name] == Record(codec, name, e)
  {
    if entries != [] {
      FilesAreFound(codec, Front(entries), name);
    }
  }

  lemma {:induction false} NameIsTaken(codec: Codec, entries: seq<Entry>, name: string)
    requires AllSafe(codec, entries)
    ensures name in FilesOf(codec, entries) <==> exists i | 0 <= i < |entries| :: Name(entries[i]) == name
  {
    if entries != [] {
      NameIsTaken(codec, Front(entries), name);
      if i :| 0 <= i < |entries| && Name(entries[i]) == name && i < |entries| - 1 {
        assert Name(Front(entries)[i]) == name;
      }
    }
  }

  lemma {:induction false} ControlBytesGrow(entries: seq<Entry>, i: nat)
    requires i <= |entries| && forall e | e in entries :: e.kind.Regular? ==> e.size >= 0
    ensures ControlBytes(entries[..i]) <= ControlBytes(entries)
    decreases |entries|
  {
    if i < |entries| {
      ControlBytesGrow(Front(entries), i);
      assert Front(entries)[..i] == entries[..i];
    } else {
      assert entries[..i] == entries;
    }
  }

  /** The entries read so far are admissible, up to their number. */
  ghost predicate Scanned(codec: Codec, read: seq<Entry>, files: map<string, File>, control: int) {
    && AllSafe(codec, read) && Distinct(read)
    && files == FilesOf(codec, read)
    && 0 <= control == ControlBytes(read) <= MAX_CONTROL
  }

  lemma ScanOne(codec: Codec, read: seq<Entry>, e: Entry, files: map<string, File>, control: int)
    requires Scanned(codec, read, files, control)
    requires Safe(codec, e) && Name(e) !in files && control + ControlSize(e) <= MAX_CONTROL
    ensures Scanned(codec, read + [e], files[Name(e) := Record(codec, Name(e), e)], control + ControlSize(e))
  {
    NameIsTaken(codec, read, Name(e));
    assert Front(read + [e]) == read;
  }

  lemma NextIsScanned(codec: Codec, entries: seq<Entry>, i: nat, files: map<string, File>, control: int)
    requires i < |entries| && Scanned(codec, entries[..i], files, control)
    requires Safe(codec, entries[i]) && Name(entries[i]) !in files && control + ControlSize(entries[i]) <= MAX_CONTROL
    ensures Scanned(codec, entries[..i + 1], files[Name(entries[i]) := Record(codec, Name(entries[i]), entries[i])],
                    control + ControlSize(entries[i]))
  {
    ScanOne(codec, entries[..i], entries[i], files, control);
    assert entries[..i] + [entries[i]] == entries[..i + 1];
  }

  /** What stops the scan at an entry makes the whole archive inadmissible. */
  lemma StopsAt(codec: Codec, entries: seq<Entry>, i: nat, files: map<string, File>, control: int)
    requires i < |entries| && Scanned(codec, entries[..i], files, control)
    requires !Safe(codec, entries[i]) || Name(entries[i]) in files || control + ControlSize(entries[i]) > MAX_CONTROL
    ensures !Admissible(codec, entries)
  {
    var e := entries[i];
    NameIsTaken(codec, entries[..i], Name(e));
    if AllSafe(codec, entries) {
      assert Front(entries[..i + 1]) == entries[..i];
      ControlBytesGrow(entries, i + 1);
    }
  }

  /** Reads one entry and hashes it; `control` counts the bytes captured so far. */
  method ReadEntry(codec: Codec, name: string, e: Entry, control: int) returns (file: Option<File>)
    requires name == Name(e) && SafeArchiveName(e.name).Some? && 0 <= control <= MAX_CONTROL
    ensures file.Some? <==> Safe(codec, e) && control + ControlSize(e) <= MAX_CONTROL
    ensures file.Some? ==> file.value == Record(codec, name, e)
  {
    if e.kind.Directory? { return Some(File("", "", 0, None)); }
    if e.kind.Other? || e.size < 0 { return None; }
    if Captured(name, e.size) {
      if control > MAX_CONTROL - e.size || |e.content| != e.size { return None; }
      return Some(File(codec.digest(e.content), "", e.size, Some(e.content)));
    }
    if |e.content| != e.size { return None; }
    if HasSuffix(name, ".tar.gz") {
      var plain := codec.gunzip(e.content);
      if plain.None? { return None; }
      return Some(File(codec.digest(e.content), codec.digest(plain.value), e.size, None));
    }
    file := Some(File(codec.digest(e.content), "", e.size, None));
  }

  /** One round of the scan. */
  method ScanEntry(codec: Codec, entries: seq<Entry>, i: nat, files: map<string, File>, control: int)
    returns (ok: bool, files': map<string, File>, control': int)
    requires i < |entries| && Scanned(codec, entries[..i], files, control)
    ensures ok ==> Scanned(codec, entries[..i + 1], files', control')
    ensures !ok ==> !Admissible(codec, entries)
  {
    files', control' := files, control;
    var e := entries[i];
    var safe := SafeArchiveName(e.name);
    if safe.None? || safe.value in files {
      StopsAt(codec, entries, i, files, control);
      return false, files, control;
    }
    var file := ReadEntry(codec, safe.value, e, control);
    if file.None? {
      StopsAt(codec, entries, i, files, control);
      return false, files, control;
    }
    NextIsScanned(codec, entries, i, files, control);
    ok, files', control' := true, files[safe.value := file.value], control + ControlSize(e);
  }

  lemma ScanStarts(codec: Codec)
    ensures Scanned(codec, [], map[], 0)
  {
  }

  lemma ScanEnds(codec: Codec, entries: seq<Entry>, files: map<string, File>, control: int)
    requires Scanned(codec, entries, files, control)
    ensures Admissible(codec, entries) <==> |entries| < MAX_ENTRIES
    ensures files == FilesOf(codec, entries)
  {
  }

  /** The scan succeeds exactly on an admissible archive that ends cleanly, and
      then returns the record of every entry under its name. */
  method Scan(codec: Codec, entries: seq<Entry>, damaged: bool) returns (ok: bool, files: map<string, File>)
    ensures ok <==> Admissible(codec, entries) && !damaged
    ensures ok ==> files == FilesOf(codec, entries)
  {
    files := map[];
    var control, i := 0, 0;
    ScanStarts(codec);
    assert entries[..i] == [];
    while i < |entries|
      invariant i <= |entries| && i <= MAX_ENTRIES
      invariant Scanned(codec, entries[..i], files, control)
    {
      if i >= MAX_ENTRIES { return false, map[]; }
      var taken;
      taken, files, control := ScanEntry(codec, entries, i, files, control);
      if !taken { return false, map[]; }
      i := i + 1;
    }
    assert entries[..i] == entries;
    ScanEnds(codec, entries, files, control);
    if i >= MAX_ENTRIES || damaged { return false, map[]; }
    ok := true;
  }

  // ----------------------------------------------------------- verification

  datatype Expectation = Expectation(tag: string, platform: string, labels: map<string, string>, digest: string)

  function NormalReference(value: string): string {
    var short := TrimPrefix(value, "docker.io/");
    if '/' in Before(short, ':') then short else "library/" + short
  }

  predicate SameReference(left: string, right: string) {
    NormalReference(left) == NormalReference(right)
  }

  /** A name without a registry or a folder, as the runtime shows it. */
  predicate ShortName(name: string) {
    '/' !in Before(name, ':')
  }

  /** A short name and its full spelling are one reference, and different short
      names are different ones in either spelling. */
  lemma FullNamesMeetShortOnes(x: string, y: string)
    requires ShortName(x) && ShortName(y)
    ensures SameReference("docker.io/library/" + x, y) <==> x == y
    ensures SameReference("library/" + x, y) <==> x == y
    ensures SameReference(x, y) <==> x == y
  {
    ShortIsExpanded(x);
    ShortIsExpanded(y);
    assert ("library/" + x)[8..] == x && ("library/" + y)[8..] == y;
  }

  lemma ShortIsExpanded(x: string)
    requires ShortName(x)
    ensures NormalReference(x) == NormalReference("library/" + x) == NormalReference("docker.io/library/" + x) == "library/" + x
  {
    var full, long := "library/" + x, "docker.io/library/" + x;
    assert long == "docker.io/" + full && long[10..] == full;
    assert full == "library" + "/" + x && full[0] == 'l';
    FolderBeforeTag("library", x);
    if HasPrefix(x, "docker.io/") {
      assert x == "docker.io" + "/" + x[10..];
      FolderBeforeTag("docker.io", x[10..]);
    }
  }

  lemma {:induction false} FolderBeforeTag(folder: string, rest: string)
    requires ':' !in folder
    ensures '/' in Before(folder + "/" + rest, ':')
  {
    var all := folder + "/" + rest;
    if folder == "" {
      assert all[0] == '/';
    } else {
      FolderBeforeTag(folder[1..], rest);
      assert all[1..] == folder[1..] + "/" + rest && all[0] == folder[0];
    }
  }

  predicate LabelFits(labels: map<string, string>, name: string, expected: string) {
    if expected == "*" then Lookup(labels, name) != "" else Lookup(labels, name) == expected
  }

  ghost predicate Fits(config: Config, x: Expectation) {
    && config.platform == x.platform
    && forall name | name in x.labels :: LabelFits(config.labels, name, x.labels[name])
  }

  method CheckFits(config: Config, x: Expectation) returns (ok: bool)
    ensures ok <==> Fits(config, x)
  {
    if config.platform != x.platform { return false; }
    var rest := x.labels.Keys;
    while rest != {}
      invariant rest <= x.labels.Keys
      invariant forall name | name in x.labels.Keys - rest :: LabelFits(config.labels, name, x.labels[name])
    {
      var name :| name in rest;
      if !LabelFits(config.labels, name, x.labels[name]) { return false; }
      rest := rest - {name};
    }
    ok := true;
  }

  function Data(files: map<string, File>, name: string): Option<Bytes> {
    if name in files then files[name].data else None
  }

  function Decoded<T>(decode: Bytes -> Option<T>, data: Option<Bytes>): Option<T> {
    if data.Some? then decode(data.value) else None
  }

  // -------------------------------------------------------------- OCI layout

  const FULL_NAME := "io.containerd.image.name"
  const SHORT_TAG := "org.opencontainers.image.ref.name"

  predicate Tagged(d: Descriptor, tag: string) {
    var fullName, shortTag := Lookup(d.annotations, FULL_NAME), Lookup(d.annotations, SHORT_TAG);
    if fullName != "" then SameReference(fullName, tag) else shortTag != "" && shortTag == After(tag, ':')
  }

  function Blob(digest: string): string {
    "blobs/sha256/" + TrimPrefix(digest, "sha256:")
  }

  predicate Described(files: map<string, File>, d: Descriptor) {
    && ValidSha256(d.digest)
    && Blob(d.digest) in files
    && files[Blob(d.digest)].digest == d.digest
    && files[Blob(d.digest)].size == d.size
  }

  ghost predicate AllDescribed(files: map<string, File>, layers: seq<Descriptor>) {
    forall i | 0 <= i < |layers| :: Described(files, layers[i])
  }

  /** Exactly one descriptor of the index carries the tag. */
  ghost predicate OnlyTagged(manifests: seq<Descriptor>, tag: string, d: Descriptor) {
    exists i | 0 <= i < |manifests| ::
      && manifests[i] == d && Tagged(d, tag)
      && forall j | 0 <= j < |manifests| && Tagged(manifests[j], tag) :: j == i
  }

  /** The digest chain from a descriptor over its manifest to the
      configuration and every layer. */
  ghost predicate Chain(codec: Codec, files: map<string, File>, x: Expectation, d: Descriptor) {
    && Described(files, d)
    && var manifest := Decoded(codec.manifest, files[Blob(d.digest)].data);
    && manifest.Some? && manifest.value.schemaVersion == 2
    && Described(files, manifest.value.config)
    && var config := Decoded(codec.config, files[Blob(manifest.value.config.digest)].data);
    && config.Some? && Fits(config.value, x)
    && (d.platform.Some? ==> d.platform.value == x.platform)
    && AllDescribed(files, manifest.value.layers)
  }

  ghost predicate AcceptsOci(codec: Codec, files: map<string, File>, x: Expectation, digest: string) {
    && Decoded(codec.layout, Data(files, "oci-layout")) == Some("1.0.0")
    && var index := Decoded(codec.index, Data(files, "index.json"));
    && index.Some? && index.value.schemaVersion == 2
    && exists d :: OnlyTagged(index.value.manifests, x.tag, d) && Chain(codec, files, x, d) && digest == d.digest
  }

  lemma OnlyOneTagged(manifests: seq<Descriptor>, tag: string, d: Descriptor, e: Descriptor)
    requires OnlyTagged(manifests, tag, d) && OnlyTagged(manifests, tag, e)
    ensures d == e
  {
  }

  /** No descriptor before `end` carries the tag, or only the one at `at`. */
  ghost predicate SeenTag(manifests: seq<Descriptor>, tag: string, end: nat, at: Option<nat>)
    requires end <= |manifests|
  {
    && (at.Some? ==> at.value < end && Tagged(manifests[at.value], tag))
    && forall j | 0 <= j < end && Tagged(manifests[j], tag) :: at == Some(j)
  }

  method Select(manifests: seq<Descriptor>, tag: string) returns (selected: Option<Descriptor>)
    ensures selected.Some? ==> OnlyTagged(manifests, tag, selected.value)
    ensures selected.None? ==> forall d :: !OnlyTagged(manifests, tag, d)
  {
    selected := None;
    ghost var at: Option<nat> := None;
    for i := 0 to |manifests|
      invariant SeenTag(manifests, tag, i, at)
      invariant selected == if at.Some? then Some(manifests[at.value]) else None
    {
      if Tagged(manifests[i], tag) {
        if selected.Some? { return None; }
        selected, at := Some(manifests[i]), Some(i);
      }
    }
  }

  method VerifyOci(codec: Codec, files: map<string, File>, x: Expectation) returns (digest: Option<string>)
    ensures digest.Some? ==> AcceptsOci(codec, files, x, digest.value)
    ensures digest.None? ==> forall other :: !AcceptsOci(codec, files, x, other)
  {
    if Decoded(codec.layout, Data(files, "oci-layout")) != Some("1.0.0") { return None; }
    var index := Decoded(codec.index, Data(files, "index.json"));
    if index.None? || index.value.schemaVersion != 2 { return None; }
    var selected := Select(index.value.manifests, x.tag);
    if selected.None? { return None; }
    var d := selected.value;
    forall e | OnlyTagged(index.value.manifests, x.tag, e) ensures e == d {
      OnlyOneTagged(index.value.manifests, x.tag, d, e);
    }
    var linked := FollowChain(codec, files, x, d);
    if !linked { return None; }
    digest := Some(d.digest);
  }

  method FollowChain(codec: Codec, files: map<string, File>, x: Expectation, d: Descriptor) returns (ok: bool)
    ensures ok <==> Chain(codec, files, x, d)
  {
    if !Described(files, d) { return false; }
    var manifest := Decoded(codec.manifest, files[Blob(d.digest)].data);
    if manifest.None? || manifest.value.schemaVersion != 2 { return false; }
    if !Described(files, manifest.value.config) { return false; }
    var config := Decoded(codec.config, files[Blob(manifest.value.config.digest)].data);
    if config.None? { return false; }
    var fits := CheckFits(config.value, x);
    if !fits || (d.platform.Some? && d.platform.value != x.platform) { return false; }
    for i := 0 to |manifest.value.layers|
      invariant forall j | 0 <= j < i :: Described(files, manifest.value.layers[j])
    {
      if !Described(files, manifest.value.layers[i]) { return false; }
    }
    ok := true;
  }

  // ----------------------------------------------------------- Docker archive

  /** The digest that the file name of a configuration promises. */
  function PromisedDigest(path: string): string {
    var base := TrimSuffix(Last(Split(path, '/')), ".json");
    if ValidSha256(base) then base else if |base| == 64 then "sha256:" + base else ""
  }

  function LayerDigest(file: File): string {
    if file.diffId != "" then file.diffId else file.digest
  }

  ghost predicate LayersFit(files: map<string, File>, layers: seq<string>, diffIds: seq<string>) {
    && |layers| == |diffIds| > 0
    && (forall i, j | 0 <= i < j < |layers| :: layers[i] != layers[j])
    && forall i | 0 <= i < |layers| :: layers[i] in files && LayerDigest(files[layers[i]]) == diffIds[i]
  }

  ghost predicate AcceptsSave(codec: Codec, files: map<string, File>, x: Expectation, digest: string) {
    && var entries: Option<seq<SaveEntry>> := Decoded(codec.save, Data(files, "manifest.json"));
    && entries.Some? && |entries.value| == 1
    && var entry := entries.value[0];
    && |entry.repoTags| == 1 && SameReference(entry.repoTags[0], x.tag)
    && entry.config in files && files[entry.config].data.Some?
    && digest == files[entry.config].digest == PromisedDigest(entry.config) != ""
    && var config := codec.config(files[entry.config].data.value);
    && config.Some? && Fits(config.value, x)
    && LayersFit(files, entry.layers, config.value.diffIds)
  }

  method VerifySave(codec: Codec, files: map<string, File>, x: Expectation) returns (digest: Option<string>)
    ensures digest.Some? ==> AcceptsSave(codec, files, x, digest.value)
    ensures digest.None? ==> forall other :: !AcceptsSave(codec, files, x, other)
  {
    var entries: Option<seq<SaveEntry>> := Decoded(codec.save, Data(files, "manifest.json"));
    if entries.None? || |entries.value| != 1 { return None; }
    var entry := entries.value[0];
    if |entry.repoTags| != 1 || !SameReference(entry.repoTags[0], x.tag) { return None; }
    if entry.config !in files || files[entry.config].data.None? { return None; }
    var promised := PromisedDigest(entry.config);
    if promised == "" || files[entry.config].digest != promised { return None; }
    var config := codec.config(files[entry.config].data.value);
    if config.None? { return None; }
    var fits := CheckFits(config.value, x);
    if !fits { return None; }
    var layersFit := CheckLayers(files, entry.layers, config.value.diffIds);
    if !layersFit { return None; }
    digest := Some(promised);
  }

  method CheckLayers(files: map<string, File>, layers: seq<string>, diffIds: seq<string>) returns (ok: bool)
    ensures ok <==> LayersFit(files, layers, diffIds)
  {
    if |layers| == 0 || |layers| != |diffIds| { return false; }
    var seen: set<string> := {};
    for i := 0 to |layers|
      invariant forall name | name in seen :: name in layers[..i]
      invariant forall j | 0 <= j < i :: layers[j] in seen
      invariant forall j, k | 0 <= j < k < i :: layers[j] != layers[k]
      invariant forall j | 0 <= j < i :: layers[j] in files && LayerDigest(files[layers[j]]) == diffIds[j]
    {
      if layers[i] in seen { return false; }
      seen := seen + {layers[i]};
      if layers[i] !in files || LayerDigest(files[layers[i]]) != diffIds[i] { return false; }
    }
    ok := true;
  }

  // ------------------------------------------------------------ whole archive

  ghost predicate Accepts(codec: Codec, files: map<string, File>, x: Expectation) {
    if Data(files, "index.json").Some? then AcceptsOci(codec, files, x, x.digest)
    else Data(files, "manifest.json").Some? && AcceptsSave(codec, files, x, x.digest)
  }

  method VerifyArchive(codec: Codec, entries: seq<Entry>, damaged: bool, x: Expectation) returns (ok: bool)
    ensures ok <==> !damaged && Admissible(codec, entries) && Accepts(codec, FilesOf(codec, entries), x)
  {
    var scanned, files := Scan(codec, entries, damaged);
    if !scanned { return false; }
    var digest: Option<string> := None;
    if Data(files, "index.json").Some? {
      digest := VerifyOci(codec, files, x);
    } else if Data(files, "manifest.json").Some? {
      digest := VerifySave(codec, files, x);
    }
    ok := digest == Some(x.digest);
  }

  // --------------------------------------------- the digest fixes the content

  /** The contents that a scan of these entries hashes: the bytes of each file
      and what a compressed layer unpacks to. */
  ghost predicate Hashed(codec: Codec, entries: seq<Entry>, content: Bytes) {
    exists e | e in entries :: Hashes(codec, e, content)
  }

  predicate Hashes(codec: Codec, e: Entry, content: Bytes) {
    && e.kind.Regular?
    && (e.content == content || (Compressed(Name(e), e.size) && codec.gunzip(e.content) == Some(content)))
  }

  /** No content of one archive collides with a content of the other. */
  ghost predicate CollisionFree(codec: Codec, a: seq<Entry>, b: seq<Entry>) {
    forall p, q | Hashed(codec, a, p) && Hashed(codec, b, q) && codec.digest(p) == codec.digest(q) :: p == q
  }

  /** The bytes of the regular file with this name. */
  function ContentOf(entries: seq<Entry>, name: string): Option<Bytes> {
    var e := Find(entries, name);
    if e.Some? && e.value.kind.Regular? then Some(e.value.content) else None
  }

  /** The bytes of a layer file, decompressed where the scan decompresses. */
  function LayerContent(codec: Codec, entries: seq<Entry>, name: string): Option<Bytes> {
    var e := Find(entries, name);
    if e.None? || !e.value.kind.Regular? then None
    else if Compressed(name, e.value.size) then codec.gunzip(e.value.content)
    else Some(e.value.content)
  }

  datatype Image = Image(config: Option<Bytes>, layers: seq<Option<Bytes>>)

  function BlobContents(entries: seq<Entry>, layers: seq<Descriptor>): seq<Option<Bytes>> {
    seq(|layers|, i requires 0 <= i < |layers| => ContentOf(entries, Blob(layers[i].digest)))
  }

  function OciImage(codec: Codec, entries: seq<Entry>, digest: string): Image {
    var manifest := Decoded(codec.manifest, ContentOf(entries, Blob(digest)));
    if manifest.None? then Image(None, [])
    else
      Image(ContentOf(entries, Blob(manifest.value.config.digest)), BlobContents(entries, manifest.value.layers))
  }

  function SaveImage(codec: Codec, entries: seq<Entry>): Image {
    var saved: Option<seq<SaveEntry>> := Decoded(codec.save, ContentOf(entries, "manifest.json"));
    if saved.None? || |saved.value| == 0 then Image(None, [])
    else
      var layers := saved.value[0].layers;
      Image(ContentOf(entries, saved.value[0].config),
            seq(|layers|, i requires 0 <= i < |layers| => LayerContent(codec, entries, layers[i])))
  }

  lemma DataIsContent(codec: Codec, entries: seq<Entry>, name: string)
    requires AllSafe(codec, entries) && Data(FilesOf(codec, entries), name).Some?
    ensures Data(FilesOf(codec, entries), name) == ContentOf(entries, name)
    ensures FilesOf(codec, entries)[name].digest == codec.digest(ContentOf(entries, name).value)
    ensures Hashed(codec, entries, ContentOf(entries, name).value)
  {
    FilesAreFound(codec, entries, name);
    assert Hashes(codec, Find(entries, name).value, ContentOf(entries, name).value);
  }

  /** A described blob is a file whose bytes have exactly the digest. */
  lemma DescribedContent(codec: Codec, entries: seq<Entry>, d: Descriptor)
    requires AllSafe(codec, entries) && Described(FilesOf(codec, entries), d)
    ensures ContentOf(entries, Blob(d.digest)).Some?
    ensures Hashed(codec, entries, ContentOf(entries, Blob(d.digest)).value)
    ensures codec.digest(ContentOf(entries, Blob(d.digest)).value) == d.digest
  {
    FilesAreFound(codec, entries, Blob(d.digest));
    assert Hashes(codec, Find(entries, Blob(d.digest)).value, ContentOf(entries, Blob(d.digest)).value);
  }

  lemma SameDescribedContent(codec: Codec, a: seq<Entry>, b: seq<Entry>, d: Descriptor, e: Descriptor)
    requires CollisionFree(codec, a, b) && AllSafe(codec, a) && AllSafe(codec, b) && d.digest == e.digest
    requires Described(FilesOf(codec, a), d) && Described(FilesOf(codec, b), e)
    ensures ContentOf(a, Blob(d.digest)) == ContentOf(b, Blob(d.digest))
    ensures ContentOf(a, Blob(d.digest)).Some?
  {
    DescribedContent(codec, a, d);
    DescribedContent(codec, b, e);
  }

  /** The digest of a file is that of its layer content. */
  ghost predicate Digests(codec: Codec, entries: seq<Entry>, digest: string, layer: Option<Bytes>) {
    && digest == (if layer.Some? then codec.digest(layer.value) else "")
    && (layer.Some? ==> Hashed(codec, entries, layer.value))
  }

  lemma LayerDigestIsContent(codec: Codec, entries: seq<Entry>, name: string)
    requires WellFormed(codec) && AllSafe(codec, entries) && name in FilesOf(codec, entries)
    ensures Digests(codec, entries, LayerDigest(FilesOf(codec, entries)[name]), LayerContent(codec, entries, name))
  {
    FilesAreFound(codec, entries, name);
    var layer := LayerContent(codec, entries, name);
    assert layer.Some? ==> Hashes(codec, Find(entries, name).value, layer.value);
  }

  lemma LayersDigest(codec: Codec, entries: seq<Entry>, layers: seq<string>, diffIds: seq<string>)
    requires WellFormed(codec) && AllSafe(codec, entries) && LayersFit(FilesOf(codec, entries), layers, diffIds)
    ensures forall i | 0 <= i < |layers| :: Digests(codec, entries, diffIds[i], LayerContent(codec, entries, layers[i]))
  {
    forall i | 0 <= i < |layers| ensures Digests(codec, entries, diffIds[i], LayerContent(codec, entries, layers[i])) {
      LayerDigestIsContent(codec, entries, layers[i]);
    }
  }

  ghost predicate AcceptedOci(codec: Codec, entries: seq<Entry>, x: Expectation) {
    Admissible(codec, entries) && AcceptsOci(codec, FilesOf(codec, entries), x, x.digest)
  }

  ghost predicate AcceptedSave(codec: Codec, entries: seq<Entry>, x: Expectation) {
    Admissible(codec, entries) && AcceptsSave(codec, FilesOf(codec, entries), x, x.digest)
  }

  lemma LayersAgree(codec: Codec, a: seq<Entry>, b: seq<Entry>, layers: seq<Descriptor>)
    requires CollisionFree(codec, a, b) && AllSafe(codec, a) && AllSafe(codec, b)
    requires AllDescribed(FilesOf(codec, a), layers) && AllDescribed(FilesOf(codec, b), layers)
    ensures BlobContents(a, layers) == BlobContents(b, layers)
    ensures forall layer | layer in BlobContents(a, layers) :: layer.Some?
  {
    forall i | 0 <= i < |layers|
      ensures BlobContents(a, layers)[i] == BlobContents(b, layers)[i] && BlobContents(a, layers)[i].Some?
    {
      SameDescribedContent(codec, a, b, layers[i], layers[i]);
    }
  }

  /** What a chain says about the files themselves. */
  lemma ChainContents(codec: Codec, entries: seq<Entry>, x: Expectation, d: Descriptor)
    requires AllSafe(codec, entries) && Chain(codec, FilesOf(codec, entries), x, d)
    ensures ContentOf(entries, Blob(d.digest)).Some?
    ensures var manifest := codec.manifest(ContentOf(entries, Blob(d.digest)).value);
            manifest.Some? && Described(FilesOf(codec, entries), manifest.value.config)
            && AllDescribed(FilesOf(codec, entries), manifest.value.layers)
  {
    DataIsContent(codec, entries, Blob(d.digest));
  }

  lemma ChainsAgree(codec: Codec, a: seq<Entry>, b: seq<Entry>, x: Expectation, y: Expectation, d: Descriptor, e: Descriptor)
    requires CollisionFree(codec, a, b) && AllSafe(codec, a) && AllSafe(codec, b) && d.digest == e.digest
    requires Chain(codec, FilesOf(codec, a), x, d) && Chain(codec, FilesOf(codec, b), y, e)
    ensures OciImage(codec, a, d.digest) == OciImage(codec, b, d.digest)
    ensures OciImage(codec, a, d.digest).config.Some?
    ensures forall layer | layer in OciImage(codec, a, d.digest).layers :: layer.Some?
  {
    SameDescribedContent(codec, a, b, d, e);
    ChainContents(codec, a, x, d);
    ChainContents(codec, b, y, e);
    var manifest := codec.manifest(ContentOf(a, Blob(d.digest)).value).value;
    SameDescribedContent(codec, a, b, manifest.config, manifest.config);
    LayersAgree(codec, a, b, manifest.layers);
  }

  /** Two OCI layouts accepted under one digest hold the same configuration and
      the same layers in the same order, whatever else is expected of them. */
  lemma OciDigestDeterminesImage(codec: Codec, a: seq<Entry>, b: seq<Entry>, x: Expectation, y: Expectation)
    requires CollisionFree(codec, a, b) && AcceptedOci(codec, a, x) && AcceptedOci(codec, b, y) && x.digest == y.digest
    ensures OciImage(codec, a, x.digest) == OciImage(codec, b, x.digest)
    ensures OciImage(codec, a, x.digest).config.Some?
    ensures forall layer | layer in OciImage(codec, a, x.digest).layers :: layer.Some?
  {
    var d :| Chain(codec, FilesOf(codec, a), x, d) && x.digest == d.digest;
    var e :| Chain(codec, FilesOf(codec, b), y, e) && y.digest == e.digest;
    ChainsAgree(codec, a, b, x, y, d, e);
  }

  /** What acceptance of a Docker archive says about its image. */
  lemma SavedImage(codec: Codec, entries: seq<Entry>, x: Expectation)
    requires WellFormed(codec) && AcceptedSave(codec, entries, x)
    ensures var image := SaveImage(codec, entries);
            && image.config.Some? && Digests(codec, entries, x.digest, image.config)
            && codec.config(image.config.value).Some?
            && var diffIds := codec.config(image.config.value).value.diffIds;
            && |image.layers| == |diffIds|
            && forall i | 0 <= i < |diffIds| :: Digests(codec, entries, diffIds[i], image.layers[i])
  {
    DataIsContent(codec, entries, "manifest.json");
    var entry := codec.save(ContentOf(entries, "manifest.json").value).value[0];
    DataIsContent(codec, entries, entry.config);
    LayersDigest(codec, entries, entry.layers, codec.config(ContentOf(entries, entry.config).value).value.diffIds);
  }

  lemma SameDigestSameContent(codec: Codec, a: seq<Entry>, b: seq<Entry>, digest: string, p: Option<Bytes>, q: Option<Bytes>)
    requires WellFormed(codec) && CollisionFree(codec, a, b) && Digests(codec, a, digest, p) && Digests(codec, b, digest, q)
    ensures p == q
  {
    assert !ValidSha256("");
    assert p.Some? ==> ValidSha256(codec.digest(p.value));
    assert q.Some? ==> ValidSha256(codec.digest(q.value));
  }

  /** Two Docker archives accepted under one digest hold the same configuration
      and the same uncompressed layers in the same order. */
  lemma SaveDigestDeterminesImage(codec: Codec, a: seq<Entry>, b: seq<Entry>, x: Expectation, y: Expectation)
    requires WellFormed(codec) && CollisionFree(codec, a, b)
    requires AcceptedSave(codec, a, x) && AcceptedSave(codec, b, y) && x.digest == y.digest
    ensures SaveImage(codec, a) == SaveImage(codec, b) && SaveImage(codec, a).config.Some?
  {
    SavedImage(codec, a, x);
    SavedImage(codec, b, y);
    var p, q := SaveImage(codec, a), SaveImage(codec, b);
    SameDigestSameContent(codec, a, b, x.digest, p.config, q.config);
    var diffIds := codec.config(p.config.value).value.diffIds;
    forall i | 0 <= i < |p.layers| ensures p.layers[i] == q.layers[i] {
      SameDigestSameContent(codec, a, b, diffIds[i], p.layers[i], q.layers[i]);
    }
  }

  /** A layer of an accepted Docker archive is a directory, without content,
      exactly where the configuration names the empty diff ID. */
  lemma EmptyDiffIdMeansDirectory(codec: Codec, entries: seq<Entry>, x: Expectation, i: nat)
    requires WellFormed(codec) && AcceptedSave(codec, entries, x)
    requires i < |SaveImage(codec, entries).layers|
    ensures SaveImage(codec, entries).config.Some?
    ensures codec.config(SaveImage(codec, entries).config.value).Some?
    ensures var diffIds := codec.config(SaveImage(codec, entries).config.value).value.diffIds;
            i < |diffIds| && (diffIds[i] == "" <==> SaveImage(codec, entries).layers[i].None?)
  {
    SavedImage(codec, entries, x);
    var image := SaveImage(codec, entries);
    assert Digests(codec, entries, codec.config(image.config.value).value.diffIds[i], image.layers[i]);
    assert !ValidSha256("");
    assert image.layers[i].Some? ==> ValidSha256(codec.digest(image.layers[i].value));
  }

  /** The scan and the layer check let any directory stand for a layer. */
  lemma DirectoryPassesAsLayer(codec: Codec, name: string)
    requires SafeArchiveName(name).Some?
    ensures var entries, layer := [Entry(name, Directory, 0, [])], SafeArchiveName(name).value;
            && Admissible(codec, entries)
            && LayersFit(FilesOf(codec, entries), [layer], [""])
            && LayerContent(codec, entries, layer) == None
  {
    var e := Entry(name, Directory, 0, []);
    ScanStarts(codec);
    ScanOne(codec, [], e, map[], 0);
    assert [] + [e] == [e];
    FilesAreFound(codec, [e], Name(e));
  }
}
