/** Exporting a snapshot: the bundle that is built passes the verifier. */
module SnapshotExport {
  import opened Wrappers
  import opened Order
  import opened Sorting
  import R = SnapshotRows
  import opened SnapshotChecksums
  import opened SnapshotFiles
  import opened SnapshotBundle
  import T = DeckText

  datatype Arguments = Arguments(snapshotId: string, version: string, gitSha: string, scope: string)

  /** The captured state: metadata of the transaction and exact counts. */
  datatype State = State(watermark: string, revision: string, isolation: string, readOnly: string, snapshot: string,
                         counts: map<string, nat>, recordCount: nat)

  datatype Spec = Spec(key: string, fileName: string, query: string)

  predicate ArgumentsOk<P>(world: World<P>, a: Arguments) {
    IsVersion(a.version) && IsGitSha(a.gitSha) && world.isUuid(a.snapshotId) && a.scope in {"public", "all"}
  }

  /** What capturing the state checks and guarantees. */
  predicate CapturedOk(s: State, includeMap: bool) {
    && T.Lower(s.isolation) == "repeatable read" && T.Lower(s.readOnly) in {"on", "true"}
    && s.counts.Keys == {"materials", "papers", "chunks", "paper_work_map"} &&
         (!includeMap ==> s.counts["paper_work_map"] == 0)
  }

  function Specs(queries: string -> string, includeMap: bool): seq<Spec> {
    [Spec("materials", MATERIALS_FILE, queries("materials")), Spec("papers", PAPERS_FILE, queries("papers"))] +
    if includeMap then [Spec("paper_work_map", WORK_MAP_FILE, queries("paper_work_map"))] else []
  }

  const RESERVED: set<string> := {LICENSE_FILE, MANIFEST_FILE, MANIFEST_HASH_FILE, CHECKSUMS_FILE}

  /** Data sets with keys and files of their own. */
  ghost predicate GoodSpecs(specs: seq<Spec>) {
    && (forall i :: 0 <= i < |specs| ==>
         specs[i].key in DATA_KEYS && IsLineName(specs[i].fileName) && specs[i].fileName !in RESERVED)
    && (forall i, j :: 0 <= i < j < |specs| ==> specs[i].key != specs[j].key && specs[i].fileName != specs[j].fileName)
  }

  function Names(specs: seq<Spec>): seq<string> {
    seq(|specs|, i requires 0 <= i < |specs| => specs[i].fileName)
  }

  function Keys(specs: seq<Spec>): seq<string> {
    seq(|specs|, i requires 0 <= i < |specs| => specs[i].key)
  }

  /** What was streamed for these data sets. */
  ghost predicate Streamed<P(!new)>(world: World<P>, specs: seq<Spec>, rows: string -> seq<P>, files: Files,
      entries: map<string, Entry>,
      queries: map<string, string>)
  {
    && (forall name :: name in files <==> name in Names(specs))
    && (forall key :: key in entries <==> key in Keys(specs)) && entries.Keys == queries.Keys
    && (forall i :: 0 <= i < |specs| ==> StreamedOne(world, specs[i], rows, files, entries, queries))
  }

  ghost predicate StreamedOne<P>(world: World<P>, spec: Spec, rows: string -> seq<P>, files: Files,
      entries: map<string, Entry>, queries: map<string, string>)
  {
    && spec.fileName in files && files[spec.fileName] == R.Rendered(world.codecs(spec.key), rows(spec.key))
    && spec.key in entries && spec.key in queries && queries[spec.key] == world.digest(spec.query)
    && entries[spec.key] ==
         Entry(spec.fileName, world.digest(files[spec.fileName]), |rows(spec.key)|, world.size(files[spec.fileName]))
  }

  predicate Streams<P>(world: World<P>, spec: Spec, rows: string -> seq<P>, counts: map<string, nat>) {
    R.Writable(world.codecs(spec.key), rows(spec.key)) && spec.key in counts && counts[spec.key] == |rows(spec.key)|
  }

  method StreamFiles<P(!new)>(world: World<P>, specs: seq<Spec>, rows: string -> seq<P>, counts: map<string, nat>)
    returns (ok: bool, files: Files, entries: map<string, Entry>, queries: map<string, string>)
    requires GoodSpecs(specs) && forall i :: 0 <= i < |specs| ==> specs[i].key in counts
    ensures ok <==> forall i :: 0 <= i < |specs| ==> Streams(world, specs[i], rows, counts)
    ensures ok ==> Streamed(world, specs, rows, files, entries, queries)
  {
    hide GoodSpecs, Streamed, R.Rendered, R.Writable;
    ok, files, entries, queries := true, map[], map[], map[];
    NothingStreamed(world, rows);
    assert specs[..0] == [];
    for i := 0 to |specs|
      invariant ok && Streamed(world, specs[..i], rows, files, entries, queries)
      invariant forall j :: 0 <= j < i ==> Streams(world, specs[j], rows, counts)
    {
      var spec := specs[i];
      var artifact := R.StreamRows(world.codecs(spec.key), rows(spec.key));
      if artifact.None? || artifact.value.1 != counts[spec.key] {
        ok := false;
        assert !Streams(world, spec, rows, counts);
        return;
      }
      var text := artifact.value.0;
      assert specs[..i + 1] == specs[..i] + [spec];
      SpecIsNew(specs, i);
      StreamStep(world, specs[..i], spec, rows, files, entries, queries, text);
      files := files[spec.fileName := text];
      entries := entries[spec.key := Entry(spec.fileName, world.digest(text), artifact.value.1, world.size(text))];
      queries := queries[spec.key := world.digest(spec.query)];
    }
    assert specs[..|specs|] == specs;
  }

  lemma NothingStreamed<P(!new)>(world: World<P>, rows: string -> seq<P>)
    ensures Streamed(world, [], rows, map[], map[], map[])
  {
  }

  lemma SpecIsNew(specs: seq<Spec>, n: nat)
    requires GoodSpecs(specs) && n < |specs|
    ensures forall i :: 0 <= i < n ==> specs[..n][i].fileName != specs[n].fileName && specs[..n][i].key != specs[n].key
  {
    hide IsLineName;
  }

  lemma NamesSnoc(specs: seq<Spec>, spec: Spec)
    ensures Names(specs + [spec]) == Names(specs) + [spec.fileName] && Keys(specs + [spec]) == Keys(specs) + [spec.key]
  {
  }

  lemma StreamStep<P(!new)>(world: World<P>, specs: seq<Spec>, spec: Spec, rows: string -> seq<P>, files: Files,
      entries: map<string, Entry>,
      queries: map<string, string>, text: string)
    requires Streamed(world, specs, rows, files, entries, queries)
    requires forall i :: 0 <= i < |specs| ==> specs[i].fileName != spec.fileName && specs[i].key != spec.key
    requires text == R.Rendered(world.codecs(spec.key), rows(spec.key))
    ensures Streamed(world, specs + [spec], rows, files[spec.fileName := text],
                     entries[spec.key := Entry(spec.fileName, world.digest(text), |rows(spec.key)|, world.size(text))],
                     queries[spec.key := world.digest(spec.query)])
  {
    hide R.Rendered, Names, Keys;
    var files' := files[spec.fileName := text];
    var entries' := entries[spec.key := Entry(spec.fileName, world.digest(text), |rows(spec.key)|, world.size(text))];
    var queries' := queries[spec.key := world.digest(spec.query)];
    var all := specs + [spec];
    NamesSnoc(specs, spec);
    forall i | 0 <= i < |all| ensures StreamedOne(world, all[i], rows, files', entries', queries') {
      if i < |specs| { assert StreamedOne(world, specs[i], rows, files, entries, queries); }
    }
  }

  // ---------- documents ----------

  function LicenseFor(a: Arguments, s: State): License {
    License(LICENSE_SCHEMA, a.snapshotId, a.version, s.watermark, a.scope, DISTRIBUTION,
            map["paper_abstracts_exported" := false, "paper_authors_exported" := false,
                "chunk_payloads_exported" := false, "vector_index_frozen" := false,
                "legacy_material_records_exported" := true])
  }

  function HeaderFor(a: Arguments, s: State): Header {
    Header(EXPORT_SCHEMA, EXPORTER, Some(SEMANTICS), a.snapshotId, a.gitSha, a.version, s.watermark, s.revision,
           a.scope, s.isolation, s.readOnly, s.snapshot)
  }

  function ManifestFor(a: Arguments, s: State, entries: map<string, Entry>, queries: map<string, string>,
      includeMap: bool): Manifest
    requires LICENSE_KEY in entries && "chunks" in s.counts
  {
    Manifest(HeaderFor(a, s), (map key | key in s.counts :: s.counts[key] as int)["material_records" := s.recordCount],
             queries, entries, entries[LICENSE_KEY].digest, s.counts["chunks"], includeMap, false, false)
  }

  // ---------- exporting ----------

  function LicenseEntry<P>(world: World<P>, license: string): Entry {
    Entry(LICENSE_FILE, world.digest(license), 1, world.size(license))
  }

  /** Everything but the two hash files. */
  ghost predicate Artifacts<P(!new)>(world: World<P>, a: Arguments, s: State, specs: seq<Spec>, includeMap: bool,
      rows: string -> seq<P>,
      files: Files, m: Manifest)
  {
    exists data: Files, entries: map<string, Entry>, hashes: map<string, string> ::
      && Streamed(world, specs, rows, data, entries, hashes)
      && ArtifactsFrom(world, a, s, includeMap, data, entries, hashes, files, m)
  }

  ghost predicate ArtifactsFrom<P>(world: World<P>, a: Arguments, s: State, includeMap: bool,
      data: Files, entries: map<string, Entry>, hashes: map<string, string>, files: Files, m: Manifest)
  {
    var license := world.writeLicense(LicenseFor(a, s));
    && "chunks" in s.counts
    && m == ManifestFor(a, s, entries[LICENSE_KEY := LicenseEntry(world, license)], hashes, includeMap)
    && files == data[LICENSE_FILE := license][MANIFEST_FILE := world.writeManifest(m)]
  }

  method BuildArtifacts<P(!new)>(world: World<P>, a: Arguments, s: State, specs: seq<Spec>, includeMap: bool,
      rows: string -> seq<P>)
    returns (ok: bool, files: Files, ghost m: Manifest)
    requires GoodSpecs(specs) && CapturedOk(s, includeMap) && forall i :: 0 <= i < |specs| ==> specs[i].key in s.counts
    ensures ok <==> forall i :: 0 <= i < |specs| ==> Streams(world, specs[i], rows, s.counts)
    ensures ok ==> Artifacts(world, a, s, specs, includeMap, rows, files, m)
  {
    hide GoodSpecs, Streamed, Streams, ManifestFor, LicenseFor;
    var entries, hashes;
    ok, files, entries, hashes := StreamFiles(world, specs, rows, s.counts);
    m := *;
    if !ok { return; }
    ghost var data, dataEntries := files, entries;
    var license := world.writeLicense(LicenseFor(a, s));
    files := files[LICENSE_FILE := license];
    entries := entries[LICENSE_KEY := LicenseEntry(world, license)];
    var manifest := ManifestFor(a, s, entries, hashes, includeMap);
    m := manifest;
    files := files[MANIFEST_FILE := world.writeManifest(manifest)];
    assert ArtifactsFrom(world, a, s, includeMap, data, dataEntries, hashes, files, m);
  }

  function DigestsOf<P>(world: World<P>, files: Files): map<string, string> {
    map name | name in files :: world.digest(files[name])
  }

  /** The artifacts with the checksum file over the names and the manifest's own hash file. */
  ghost predicate SealedOver<P>(world: World<P>, artifacts: Files, names: seq<string>, files: Files) {
    var digests := DigestsOf(world, artifacts);
    && (forall i :: 0 <= i < |Sort(names, TextAtMost)| ==> Sort(names, TextAtMost)[i] in digests) &&
         MANIFEST_FILE in artifacts
    && files == artifacts[CHECKSUMS_FILE := T.Join(ChecksumLines(Sort(names, TextAtMost), digests))]
                         [MANIFEST_HASH_FILE := ChecksumLine(MANIFEST_FILE, digests[MANIFEST_FILE])]
  }

  /** A bundle whose artifacts are in place: the checksum file and the manifest's own hash file are added. */
  method SealBundle<P>(world: World<P>, artifacts: Files, names: seq<string>) returns (files: Files)
    requires forall i :: 0 <= i < |names| ==> names[i] in artifacts
    requires MANIFEST_FILE in artifacts
    ensures SealedOver(world, artifacts, names, files)
  {
    var digests := DigestsOf(world, artifacts);
    var checksums := WriteChecksums(names, digests);
    var hashLine := ChecksumLine(MANIFEST_FILE, digests[MANIFEST_FILE]);
    files := artifacts[CHECKSUMS_FILE := checksums][MANIFEST_HASH_FILE := hashLine];
  }

  predicate IsPlain(c: char) { 'a' <= c <= 'z' || c == '_' || c == '.' }

  /** Only small letters, underscores and dots from `i` on. */
  predicate PlainFrom(s: string, i: nat)
    requires i <= |s|
    decreases |s| - i
  {
    i == |s| || (IsPlain(s[i]) && PlainFrom(s, i + 1))
  }

  lemma {:induction false} PlainCharacters(s: string, i: nat)
    requires i <= |s| && PlainFrom(s, i)
    ensures forall k :: i <= k < |s| ==> IsPlain(s[k])
    decreases |s| - i
  {
    if i < |s| { PlainCharacters(s, i + 1); }
  }

  lemma PlainIsLineName(s: string)
    requires |s| > 2 && PlainFrom(s, 0)
    ensures IsLineName(s)
  {
    PlainCharacters(s, 0);
  }

  lemma WorkMapName()
    ensures IsLineName(WORK_MAP_FILE)
  {
    assert PlainFrom(WORK_MAP_FILE, 12);
    assert PlainFrom(WORK_MAP_FILE, 4);
    PlainIsLineName(WORK_MAP_FILE);
  }

  lemma DataNames()
    ensures IsLineName(MATERIALS_FILE) && IsLineName(PAPERS_FILE) && IsLineName(WORK_MAP_FILE)
  {
    hide IsLineName;
    assert PlainFrom(MATERIALS_FILE, 8);
    PlainIsLineName(MATERIALS_FILE);
    PlainIsLineName(PAPERS_FILE);
    WorkMapName();
  }

  lemma DocumentNames()
    ensures IsLineName(LICENSE_FILE) && IsLineName(MANIFEST_FILE)
  {
    hide IsLineName;
    assert PlainFrom(LICENSE_FILE, 12);
    assert PlainFrom(LICENSE_FILE, 4);
    PlainIsLineName(LICENSE_FILE);
    assert PlainFrom(MANIFEST_FILE, 12);
    assert PlainFrom(MANIFEST_FILE, 4);
    PlainIsLineName(MANIFEST_FILE);
  }

  lemma SpecsAreGood(queries: string -> string, includeMap: bool)
    ensures GoodSpecs(Specs(queries, includeMap))
    ensures var specs := Specs(queries, includeMap);
            forall i :: 0 <= i < |specs| ==> specs[i].key in {"materials", "papers", "chunks", "paper_work_map"}
  {
    DataNames();
    hide IsLineName;
    assert WORK_MAP_FILE[0] != MANIFEST_FILE[0];
  }

  // ---------- what the verifier finds ----------

  lemma HeaderFound<P>(world: World<P>, a: Arguments, s: State, includeMap: bool)
    requires ArgumentsOk(world, a) && CapturedOk(s, includeMap)
    ensures HeaderOk(world, HeaderFor(a, s)) <==>
      world.isAware(s.watermark) && T.Strip(s.revision) != "" && s.snapshot != ""
  {
    hide IsVersion, IsGitSha, T.Strip, T.Lower;
  }

  lemma SpecKeys(queries: string -> string, includeMap: bool)
    ensures var keys := Keys(Specs(queries, includeMap));
            forall key :: key in keys <==>
              key == "materials" || key == "papers" || (includeMap && key == "paper_work_map")
  {
    var keys := Keys(Specs(queries, includeMap));
    assert keys[0] == "materials" && keys[1] == "papers" && (includeMap ==> keys[2] == "paper_work_map");
  }

  lemma CountsFound(a: Arguments, s: State, entries: map<string, Entry>, hashes: map<string, string>, includeMap: bool)
    requires CapturedOk(s, includeMap) && LICENSE_KEY in entries
    ensures "chunks" in s.counts && "paper_work_map" in s.counts
    ensures var counts := ManifestFor(a, s, entries, hashes, includeMap).counts;
            CountsOk(counts) && counts["chunks"] == s.counts["chunks"] &&
              counts["paper_work_map"] == s.counts["paper_work_map"]
  {
    hide T.Lower;
  }

  /** The counts, keys and top level of a manifest over streamed data sets. */
  lemma TopLevelFound<P(!new)>(world: World<P>, a: Arguments, s: State, queries: string -> string, includeMap: bool,
      rows: string -> seq<P>,
      data: Files, entries: map<string, Entry>, hashes: map<string, string>, license: Entry)
    requires CapturedOk(s, includeMap) && Streamed(world, Specs(queries, includeMap), rows, data, entries, hashes)
    ensures var m := ManifestFor(a, s, entries[LICENSE_KEY := license], hashes, includeMap);
            CountsOk(m.counts) && KeysOk(m) && TopLevelOk(m)
  {
    hide StreamedOne, T.Lower, Keys, Specs, CountsOk;
    SpecKeys(queries, includeMap);
    CountsFound(a, s, entries[LICENSE_KEY := license], hashes, includeMap);
    assert LICENSE_KEY !in entries;
  }

  /** The rows of a data set have exactly its fields. */
  predicate Meets<P>(world: World<P>, spec: Spec, rows: string -> seq<P>) {
    R.MeetContract(world.codecs(spec.key), Fields(spec.key), rows(spec.key))
  }

  predicate RowsMeet<P>(world: World<P>, specs: seq<Spec>, rows: string -> seq<P>) {
    forall i :: 0 <= i < |specs| ==> Meets(world, specs[i], rows)
  }

  lemma DataContent<P(!new)>(world: World<P>, spec: Spec, rows: string -> seq<P>, counts: map<string, nat>,
      m: Manifest, content: string)
    requires Sane(world) && spec.key in DATA_KEYS && Streams(world, spec, rows, counts)
    requires content == R.Rendered(world.codecs(spec.key), rows(spec.key))
    requires spec.key in m.counts && spec.key in counts && m.counts[spec.key] == counts[spec.key]
    requires spec.key in m.queries && m.queries[spec.key] == world.digest(spec.query)
    ensures forall entry: Entry :: entry.rows == |rows(spec.key)| ==>
      (ContentOk(world, m, spec.key, entry, content) <==> Meets(world, spec, rows))
  {
    hide R.Rendered, R.RowCount, R.Writable, R.MeetContract, Fields, IsDigest;
    R.WrittenRowsVerify(world.codecs(spec.key), Fields(spec.key), rows(spec.key));
  }

  lemma DataEntryFound<P(!new)>(world: World<P>, a: Arguments, s: State, specs: seq<Spec>, i: nat, includeMap: bool,
      rows: string -> seq<P>,
      data: Files, entries: map<string, Entry>, hashes: map<string, string>, license: Entry, files: Files)
    requires Sane(world) && GoodSpecs(specs) && CapturedOk(s, includeMap) && i < |specs|
    requires Streams(world, specs[i], rows, s.counts) && StreamedOne(world, specs[i], rows, data, entries, hashes)
    requires specs[i].fileName in files && files[specs[i].fileName] == data[specs[i].fileName]
    ensures var m := ManifestFor(a, s, entries[LICENSE_KEY := license], hashes, includeMap);
            specs[i].key in m.files && NameOf(m.files[specs[i].key]) == specs[i].fileName &&
            (EntryOk(world, files, m, specs[i].key, m.files[specs[i].key]) <==> Meets(world, specs[i], rows))
  {
    hide Sane, Meets, Streams, ContentOk, R.Rendered, T.Lower, IsDigest, T.IsBreak, HeaderFor, ArtifactName;
    var spec := specs[i];
    PlainNames(spec.fileName);
    var m := ManifestFor(a, s, entries[LICENSE_KEY := license], hashes, includeMap);
    assert spec.key in DATA_KEYS && spec.key != LICENSE_KEY;
    KeyCounted(world, spec, rows, s.counts);
    assert spec.key in m.counts && m.counts[spec.key] == s.counts[spec.key];
    DataContent(world, spec, rows, s.counts, m, files[spec.fileName]);
    DigestsAreDigests(world, files[spec.fileName]);
  }

  lemma KeyCounted<P>(world: World<P>, spec: Spec, rows: string -> seq<P>, counts: map<string, nat>)
    requires Streams(world, spec, rows, counts)
    ensures spec.key in counts
  {
  }

  lemma DigestsAreDigests<P(!new)>(world: World<P>, s: string)
    requires Sane(world)
    ensures IsDigest(world.digest(s))
  {
  }

  lemma LicenseFound<P(!new)>(world: World<P>, a: Arguments, s: State, entries: map<string, Entry>,
      hashes: map<string, string>, includeMap: bool, files: Files)
    requires Sane(world) && "chunks" in s.counts
    requires LICENSE_FILE in files && files[LICENSE_FILE] == world.writeLicense(LicenseFor(a, s))
    ensures var entry := LicenseEntry(world, files[LICENSE_FILE]);
            var m := ManifestFor(a, s, entries[LICENSE_KEY := entry], hashes, includeMap);
            m.files[LICENSE_KEY] == entry && NameOf(entry) == LICENSE_FILE &&
              EntryOk(world, files, m, LICENSE_KEY, entry)
  {
    hide IsDigest, ArtifactName;
    DocumentNames();
    PlainNames(LICENSE_FILE);
    hide T.IsBreak;
    DigestsAreDigests(world, files[LICENSE_FILE]);
    assert world.readLicense(files[LICENSE_FILE]) == Some(LicenseFor(a, s));
  }

  /** The files stand as they were streamed, with the license beside them. */
  ghost predicate Holds<P(!new)>(world: World<P>, a: Arguments, s: State, specs: seq<Spec>, data: Files, files: Files) {
    && (forall i :: 0 <= i < |specs| ==>
         specs[i].fileName in data && specs[i].fileName in files && files[specs[i].fileName] == data[specs[i].fileName])
    && LICENSE_FILE in files && files[LICENSE_FILE] == world.writeLicense(LicenseFor(a, s))
  }

  lemma DataEntriesFound<P(!new)>(world: World<P>, a: Arguments, s: State, specs: seq<Spec>, includeMap: bool,
      rows: string -> seq<P>,
      data: Files, entries: map<string, Entry>, hashes: map<string, string>, license: Entry, files: Files)
    requires Sane(world) && RowsMeet(world, specs, rows) && GoodSpecs(specs) && CapturedOk(s, includeMap)
    requires Streamed(world, specs, rows, data, entries, hashes) && Holds(world, a, s, specs, data, files)
    requires forall i :: 0 <= i < |specs| ==> Streams(world, specs[i], rows, s.counts)
    ensures "chunks" in s.counts
    ensures var m := ManifestFor(a, s, entries[LICENSE_KEY := license], hashes, includeMap);
            forall i :: 0 <= i < |specs| ==> FoundAt(world, files, m, specs[i])
  {
    hide Sane, Meets, EntryOk, Streams, LicenseFor, StreamedOne, ManifestFor, GoodSpecs;
    ManifestFiles(a, s, entries, hashes, includeMap, license);
    var m := ManifestFor(a, s, entries[LICENSE_KEY := license], hashes, includeMap);
    forall i | 0 <= i < |specs| ensures FoundAt(world, files, m, specs[i]) {
      DataEntryFound(world, a, s, specs, i, includeMap, rows, data, entries, hashes, license, files);
    }
  }

  /** The entry of a data set is in order and points to its file. */
  ghost predicate FoundAt<P>(world: World<P>, files: Files, m: Manifest, spec: Spec) {
    spec.key in m.files && EntryOk(world, files, m, spec.key, m.files[spec.key]) &&
      NameOf(m.files[spec.key]) == spec.fileName
  }

  lemma EntriesFound<P(!new)>(world: World<P>, a: Arguments, s: State, specs: seq<Spec>, includeMap: bool,
      rows: string -> seq<P>,
      data: Files, entries: map<string, Entry>, hashes: map<string, string>, files: Files)
    requires Sane(world) && RowsMeet(world, specs, rows) && GoodSpecs(specs) && CapturedOk(s, includeMap)
    requires Streamed(world, specs, rows, data, entries, hashes) && Holds(world, a, s, specs, data, files)
    requires forall i :: 0 <= i < |specs| ==> Streams(world, specs[i], rows, s.counts)
    ensures var entry := LicenseEntry(world, files[LICENSE_FILE]);
            var m := ManifestFor(a, s, entries[LICENSE_KEY := entry], hashes, includeMap);
            EntriesOk(world, files, m) && NamesIn(m) == (set name | name in Names(specs)) + {LICENSE_FILE}
  {
    hide Sane, RowsMeet, CapturedOk, ManifestFor, EntryOk, Streams, LicenseFor, IsLineName, StreamedOne, FoundAt,
      EntriesOk, NamesIn, NameOf;
    var entry := LicenseEntry(world, files[LICENSE_FILE]);
    DataEntriesFound(world, a, s, specs, includeMap, rows, data, entries, hashes, entry, files);
    ManifestFiles(a, s, entries, hashes, includeMap, entry);
    LicenseFound(world, a, s, entries, hashes, includeMap, files);
    var m := ManifestFor(a, s, entries[LICENSE_KEY := entry], hashes, includeMap);
    forall key | key in m.files ensures key == LICENSE_KEY || exists i :: 0 <= i < |specs| && specs[i].key == key {
      if key != LICENSE_KEY {
        assert key in Keys(specs);
        var i :| 0 <= i < |specs| && Keys(specs)[i] == key;
      }
    }
    EntriesAssembled(world, files, m, specs);
    forall i | 0 <= i < |specs|
      ensures specs[i].key in m.files && NameOf(m.files[specs[i].key]) == specs[i].fileName
    {
      FoundMeans(world, files, m, specs[i]);
    }
    ManifestNames(m, specs);
  }

  lemma FoundMeans<P>(world: World<P>, files: Files, m: Manifest, spec: Spec)
    requires FoundAt(world, files, m, spec)
    ensures spec.key in m.files && EntryOk(world, files, m, spec.key, m.files[spec.key])
    ensures NameOf(m.files[spec.key]) == spec.fileName
  {
    hide EntryOk;
  }

  lemma EntriesAssembled<P>(world: World<P>, files: Files, m: Manifest, specs: seq<Spec>)
    requires GoodSpecs(specs) && LICENSE_KEY in m.files && EntryOk(world, files, m, LICENSE_KEY, m.files[LICENSE_KEY])
    requires NameOf(m.files[LICENSE_KEY]) == LICENSE_FILE
    requires forall i :: 0 <= i < |specs| ==> FoundAt(world, files, m, specs[i])
    requires forall key :: key in m.files ==> key == LICENSE_KEY || exists i :: 0 <= i < |specs| && specs[i].key == key
    ensures EntriesOk(world, files, m)
  {
    hide EntryOk, IsLineName, NameOf;
    forall key | key in m.files ensures EntryOk(world, files, m, key, m.files[key]) {
      if key != LICENSE_KEY {
        var i :| 0 <= i < |specs| && specs[i].key == key;
        FoundMeans(world, files, m, specs[i]);
      }
    }
    forall k, l | k in m.files && l in m.files && NameOf(m.files[k]) == NameOf(m.files[l]) ensures k == l {
      if k != LICENSE_KEY {
        var i :| 0 <= i < |specs| && specs[i].key == k;
        FoundMeans(world, files, m, specs[i]);
      }
      if l != LICENSE_KEY {
        var j :| 0 <= j < |specs| && specs[j].key == l;
        FoundMeans(world, files, m, specs[j]);
      }
    }
  }

  lemma ManifestFiles(a: Arguments, s: State, entries: map<string, Entry>, hashes: map<string, string>,
      includeMap: bool, entry: Entry)
    requires CapturedOk(s, includeMap)
    ensures "chunks" in s.counts
    ensures ManifestFor(a, s, entries[LICENSE_KEY := entry], hashes, includeMap).files == entries[LICENSE_KEY := entry]
  {
  }

  lemma ManifestNames(m: Manifest, specs: seq<Spec>)
    requires LICENSE_KEY in m.files && NameOf(m.files[LICENSE_KEY]) == LICENSE_FILE
    requires forall i :: 0 <= i < |specs| ==>
      specs[i].key in m.files && NameOf(m.files[specs[i].key]) == specs[i].fileName
    requires forall key :: key in m.files ==> key == LICENSE_KEY || exists i :: 0 <= i < |specs| && specs[i].key == key
    ensures NamesIn(m) == (set name | name in Names(specs)) + {LICENSE_FILE}
  {
    forall name | name in Names(specs) ensures name in NamesIn(m) {
      var i :| 0 <= i < |specs| && Names(specs)[i] == name;
      assert NameOf(m.files[specs[i].key]) == name;
    }
    forall name | name in NamesIn(m) ensures name in Names(specs) || name == LICENSE_FILE {
      var key :| key in m.files && NameOf(m.files[key]) == name;
      if key != LICENSE_KEY {
        var i :| 0 <= i < |specs| && specs[i].key == key;
        assert Names(specs)[i] == name;
      }
    }
  }

  lemma HashLineReads(digest: string)
    requires IsDigest(digest)
    ensures Translated(ChecksumLine(MANIFEST_FILE, digest)) == ChecksumLine(MANIFEST_FILE, digest)
  {
    hide Translated, IsDigest;
    NoReturnInLine(digest);
    TranslatedSame(ChecksumLine(MANIFEST_FILE, digest));
  }

  /** The hash files written over the artifacts are the ones the verifier expects. */
  lemma SealFound<P(!new)>(world: World<P>, names: seq<string>, artifacts: Files, files: Files, m: Manifest)
    requires Sane(world) && (forall name :: name in artifacts <==> name in names) && MANIFEST_FILE in artifacts
    requires (forall i, j :: 0 <= i < j < |names| ==> names[i] != names[j]) && forall i :: 0 <= i < |names| ==>
      IsLineName(names[i])
    requires CHECKSUMS_FILE !in artifacts && MANIFEST_HASH_FILE !in artifacts
    requires NamesIn(m) == artifacts.Keys - {MANIFEST_FILE}
    requires SealedOver(world, artifacts, names, files)
    ensures SealOk(world, files, Expected(world, files, m))
  {
    hide Sane, IsLineName, IsDigest, Sort, NamesIn, ParseChecksums, ChecksumLine, ChecksumLines, Translated;
    var digests := DigestsOf(world, artifacts);
    forall i | 0 <= i < |names|
      ensures names[i] in digests && IsDigest(digests[names[i]])
    {
      DigestsAreDigests(world, artifacts[names[i]]);
    }
    ChecksumsReadBack(names, digests);
    HashLineReads(digests[MANIFEST_FILE]);
    assert MANIFEST_HASH_FILE != CHECKSUMS_FILE;
    assert Only(digests, names) == Expected(world, files, m);
  }

  /** All data sets are in order, with the captured numbers of rows. */
  predicate AllStream<P>(world: World<P>, specs: seq<Spec>, rows: string -> seq<P>, counts: map<string, nat>) {
    forall i :: 0 <= i < |specs| ==> Streams(world, specs[i], rows, counts)
  }

  /** The captured texts are ones the verifier takes. */
  predicate TextsOk<P>(world: World<P>, s: State) {
    world.isAware(s.watermark) && T.Strip(s.revision) != "" && s.snapshot != ""
  }

  // ---------- what a bundle declares ----------

  /** A data set's file is its rows, and the manifest has its name, digest, rows, bytes and query. */
  ghost predicate DeclaresData<P>(world: World<P>, m: Manifest, files: Files, key: string, name: string,
      query: string, rows: seq<P>)
  {
    && name in files && files[name] == R.Rendered(world.codecs(key), rows)
    && key in m.files && m.files[key] == Entry(name, world.digest(files[name]), |rows|, world.size(files[name]))
    && key in m.queries && m.queries[key] == world.digest(query)
  }

  /** The manifest's header says what was asked for and what was captured. */
  ghost predicate DeclaresHeader(h: Header, a: Arguments, s: State) {
    && h.schema == "sclib-source-export/v1" && h.exporter == "sclib-ml-source-exporter/v1"
    && h.semantics == Some("catalogue_summary_not_joint_observation")
    && h.snapshotId == a.snapshotId && h.version == a.version && h.gitSha == a.gitSha && h.scope == a.scope
    && h.watermark == s.watermark && h.revision == s.revision
    && h.isolation == s.isolation && h.readOnly == s.readOnly && h.snapshot == s.snapshot
  }

  /** So does the license; it declares neither a release nor an export of abstracts, authors, payloads or vectors. */
  ghost predicate DeclaresLicense(l: License, a: Arguments, s: State) {
    && l.schema == "sclib-license-manifest/v1" && l.distribution == "not_cleared_for_public_release"
    && l.snapshotId == a.snapshotId && l.version == a.version && l.scope == a.scope && l.watermark == s.watermark
    && (forall p :: p in l.policy ==> (l.policy[p] <==> p == "legacy_material_records_exported"))
    && l.policy.Keys == {"paper_abstracts_exported", "paper_authors_exported", "chunk_payloads_exported",
                         "vector_index_frozen", "legacy_material_records_exported"}
  }

  ghost predicate DeclaresCounts(m: Manifest, s: State, includeMap: bool) {
    && m.counts.Keys == s.counts.Keys + {"material_records"} && m.counts["material_records"] == s.recordCount
    && (forall key :: key in s.counts && key != "material_records" ==> m.counts[key] == s.counts[key])
    && "chunks" in s.counts && m.chunkCount == s.counts["chunks"]
    && m.mapIncluded == includeMap && !m.inventoryExported && !m.vectorFrozen
  }

  /** Every data set of the export is declared, under its own key and file name, and nothing else but the license. */
  ghost predicate DeclaresFiles<P>(world: World<P>, m: Manifest, files: Files, queries: string -> string,
      includeMap: bool, rows: string -> seq<P>)
  {
    && DeclaresData(world, m, files, "materials", MATERIALS_FILE, queries("materials"), rows("materials"))
    && DeclaresData(world, m, files, "papers", PAPERS_FILE, queries("papers"), rows("papers"))
    && (includeMap ==> DeclaresData(world, m, files, "paper_work_map", WORK_MAP_FILE, queries("paper_work_map"),
                                    rows("paper_work_map")))
    && m.queries.Keys == {"materials", "papers"} + (if includeMap then {"paper_work_map"} else {})
    && m.files.Keys == m.queries.Keys + {LICENSE_KEY} && LICENSE_FILE in files
    && m.files[LICENSE_KEY] == Entry(LICENSE_FILE, m.licenseDigest, 1, world.size(files[LICENSE_FILE]))
    && m.licenseDigest == world.digest(files[LICENSE_FILE])
  }

  /** The documents of a bundle read back as what was asked for and captured, its data files are the rows, and there is
      nothing else in it. */
  ghost predicate Declares<P>(world: World<P>, a: Arguments, s: State, queries: string -> string, includeMap: bool,
      rows: string -> seq<P>, files: Files)
  {
    && files.Keys == {MATERIALS_FILE, PAPERS_FILE, LICENSE_FILE, MANIFEST_FILE, MANIFEST_HASH_FILE, CHECKSUMS_FILE}
                     + (if includeMap then {WORK_MAP_FILE} else {})
    && var manifest, license := world.readManifest(files[MANIFEST_FILE]), world.readLicense(files[LICENSE_FILE]);
      && manifest.Some? && license.Some?
      && DeclaresHeader(manifest.value.header, a, s) && DeclaresCounts(manifest.value, s, includeMap)
      && DeclaresLicense(license.value, a, s)
      && DeclaresFiles(world, manifest.value, files, queries, includeMap, rows)
  }

  lemma HeaderDeclared(a: Arguments, s: State)
    ensures DeclaresHeader(HeaderFor(a, s), a, s)
  {
  }

  lemma LicenseDeclared(a: Arguments, s: State)
    ensures DeclaresLicense(LicenseFor(a, s), a, s)
  {
  }

  lemma CountsDeclared(a: Arguments, s: State, entries: map<string, Entry>, hashes: map<string, string>,
      includeMap: bool)
    requires LICENSE_KEY in entries && "chunks" in s.counts
    ensures DeclaresCounts(ManifestFor(a, s, entries, hashes, includeMap), s, includeMap)
  {
    hide HeaderFor;
  }

  lemma SpecDeclared<P>(world: World<P>, a: Arguments, s: State, spec: Spec, includeMap: bool, rows: string -> seq<P>,
      data: Files, entries: map<string, Entry>, hashes: map<string, string>, license: Entry, files: Files)
    requires StreamedOne(world, spec, rows, data, entries, hashes) && spec.key in DATA_KEYS && "chunks" in s.counts
    requires spec.fileName in files && files[spec.fileName] == data[spec.fileName]
    ensures DeclaresData(world, ManifestFor(a, s, entries[LICENSE_KEY := license], hashes, includeMap), files,
                         spec.key, spec.fileName, spec.query, rows(spec.key))
  {
    hide R.Rendered, HeaderFor;
    assert spec.key != LICENSE_KEY;
  }

  lemma SpecsByName(queries: string -> string, includeMap: bool)
    ensures var specs := Specs(queries, includeMap);
      && |specs| == (if includeMap then 3 else 2)
      && specs[0] == Spec("materials", MATERIALS_FILE, queries("materials"))
      && specs[1] == Spec("papers", PAPERS_FILE, queries("papers"))
      && (includeMap ==> specs[2] == Spec("paper_work_map", WORK_MAP_FILE, queries("paper_work_map")))
  {
  }

  lemma SpecNames(queries: string -> string, includeMap: bool)
    ensures (set name | name in Names(Specs(queries, includeMap))) ==
            {MATERIALS_FILE, PAPERS_FILE} + (if includeMap then {WORK_MAP_FILE} else {})
    ensures (set key | key in Keys(Specs(queries, includeMap))) ==
            {"materials", "papers"} + (if includeMap then {"paper_work_map"} else {})
  {
    var specs := Specs(queries, includeMap);
    SpecsByName(queries, includeMap);
    hide Specs;
    assert Names(specs)[0] == MATERIALS_FILE && Names(specs)[1] == PAPERS_FILE;
    assert Keys(specs)[0] == "materials" && Keys(specs)[1] == "papers";
    assert includeMap ==> Names(specs)[2] == WORK_MAP_FILE && Keys(specs)[2] == "paper_work_map";
  }

  lemma SealedKeys<P>(world: World<P>, artifacts: Files, names: seq<string>, files: Files)
    requires SealedOver(world, artifacts, names, files)
    ensures files.Keys == artifacts.Keys + {CHECKSUMS_FILE, MANIFEST_HASH_FILE}
  {
    hide Sort, ChecksumLine, ChecksumLines;
  }

  lemma StreamedKeys<P(!new)>(world: World<P>, specs: seq<Spec>, rows: string -> seq<P>, files: Files,
      entries: map<string, Entry>, queries: map<string, string>)
    requires Streamed(world, specs, rows, files, entries, queries)
    ensures entries.Keys == queries.Keys == (set key | key in Keys(specs))
  {
    hide StreamedOne;
  }

  lemma DataDeclared<P(!new)>(world: World<P>, a: Arguments, s: State, specs: seq<Spec>, includeMap: bool,
      rows: string -> seq<P>, data: Files, entries: map<string, Entry>, hashes: map<string, string>, license: Entry,
      files: Files)
    requires GoodSpecs(specs) && Streamed(world, specs, rows, data, entries, hashes) && "chunks" in s.counts
    requires Holds(world, a, s, specs, data, files)
    ensures var m := ManifestFor(a, s, entries[LICENSE_KEY := license], hashes, includeMap);
      forall i :: 0 <= i < |specs| ==>
        DeclaresData(world, m, files, specs[i].key, specs[i].fileName, specs[i].query, rows(specs[i].key))
  {
    hide IsLineName, StreamedOne, DeclaresData, ManifestFor, LicenseFor;
    forall i | 0 <= i < |specs|
      ensures DeclaresData(world, ManifestFor(a, s, entries[LICENSE_KEY := license], hashes, includeMap), files,
                           specs[i].key, specs[i].fileName, specs[i].query, rows(specs[i].key))
    {
      SpecDeclared(world, a, s, specs[i], includeMap, rows, data, entries, hashes, license, files);
    }
  }

  lemma ManifestParts(a: Arguments, s: State, entries: map<string, Entry>, hashes: map<string, string>,
      includeMap: bool)
    requires LICENSE_KEY in entries && "chunks" in s.counts
    ensures var m := ManifestFor(a, s, entries, hashes, includeMap);
      m.header == HeaderFor(a, s) && m.queries == hashes && m.files == entries &&
      m.licenseDigest == entries[LICENSE_KEY].digest
  {
  }

  lemma LicenseReadBack<P(!new)>(world: World<P>, l: License)
    requires Sane(world)
    ensures world.readLicense(world.writeLicense(l)) == Some(l)
  {
  }

  lemma FilesDeclared<P(!new)>(world: World<P>, a: Arguments, s: State, queries: string -> string, includeMap: bool,
      rows: string -> seq<P>, data: Files, entries: map<string, Entry>, hashes: map<string, string>, files: Files)
    requires var specs := Specs(queries, includeMap);
      Streamed(world, specs, rows, data, entries, hashes) && Holds(world, a, s, specs, data, files)
    requires "chunks" in s.counts
    ensures var m := ManifestFor(a, s, entries[LICENSE_KEY := LicenseEntry(world, files[LICENSE_FILE])], hashes,
                                 includeMap);
      DeclaresFiles(world, m, files, queries, includeMap, rows)
  {
    var specs := Specs(queries, includeMap);
    var license := LicenseEntry(world, files[LICENSE_FILE]);
    var m := ManifestFor(a, s, entries[LICENSE_KEY := license], hashes, includeMap);
    SpecsAreGood(queries, includeMap);
    StreamedKeys(world, specs, rows, data, entries, hashes);
    SpecNames(queries, includeMap);
    SpecsByName(queries, includeMap);
    DataDeclared(world, a, s, specs, includeMap, rows, data, entries, hashes, license, files);
    ManifestParts(a, s, entries[LICENSE_KEY := license], hashes, includeMap);
    hide Specs, Streamed, GoodSpecs, ManifestFor, HeaderFor, LicenseFor, Keys, DeclaresData;
  }

  lemma TwoMore(files: Files, names: seq<string>, a: string, b: string)
    requires forall name :: name in files <==> name in names + [a, b]
    ensures files.Keys == (set name | name in names) + {a, b}
  {
  }

  lemma BundleKeys<P(!new)>(world: World<P>, a: Arguments, s: State, queries: string -> string, includeMap: bool,
      rows: string -> seq<P>, artifacts: Files, m: Manifest, files: Files)
    requires Artifacts(world, a, s, Specs(queries, includeMap), includeMap, rows, artifacts, m)
    requires SealedOver(world, artifacts, Names(Specs(queries, includeMap)) + [LICENSE_FILE, MANIFEST_FILE], files)
    ensures files.Keys ==
            {MATERIALS_FILE, PAPERS_FILE, LICENSE_FILE, MANIFEST_FILE, MANIFEST_HASH_FILE, CHECKSUMS_FILE}
            + (if includeMap then {WORK_MAP_FILE} else {})
  {
    hide *;
    var specs := Specs(queries, includeMap);
    ArtifactNames(world, a, s, specs, includeMap, rows, artifacts, m);
    SealedKeys(world, artifacts, Names(specs) + [LICENSE_FILE, MANIFEST_FILE], files);
    SpecNames(queries, includeMap);
    TwoMore(artifacts, Names(specs), LICENSE_FILE, MANIFEST_FILE);
  }

  /** What was put together declares what was asked for and captured. */
  lemma BundleDeclares<P(!new)>(world: World<P>, a: Arguments, s: State, queries: string -> string, includeMap: bool,
      rows: string -> seq<P>, artifacts: Files, m: Manifest, files: Files)
    requires Sane(world)
    requires Artifacts(world, a, s, Specs(queries, includeMap), includeMap, rows, artifacts, m)
    requires SealedOver(world, artifacts, Names(Specs(queries, includeMap)) + [LICENSE_FILE, MANIFEST_FILE], files)
    ensures Declares(world, a, s, queries, includeMap, rows, files)
  {
    var specs := Specs(queries, includeMap);
    SpecsAreGood(queries, includeMap);
    var data, entries, hashes := BundleParts(world, a, s, specs, includeMap, rows, artifacts, m, files);
    BundleKeys(world, a, s, queries, includeMap, rows, artifacts, m, files);
    FilesDeclared(world, a, s, queries, includeMap, rows, data, entries, hashes, files);
    var license := LicenseEntry(world, files[LICENSE_FILE]);
    CountsDeclared(a, s, entries[LICENSE_KEY := license], hashes, includeMap);
    ManifestParts(a, s, entries[LICENSE_KEY := license], hashes, includeMap);
    ManifestReadBack(world, m);
    LicenseReadBack(world, LicenseFor(a, s));
    HeaderDeclared(a, s);
    LicenseDeclared(a, s);
    hide Specs, Streamed, Artifacts, GoodSpecs, ManifestFor, Sane, SealedOver, Names, HeaderFor, LicenseFor, Keys,
      DeclaresFiles, DeclaresHeader, DeclaresCounts, DeclaresLicense;
  }

  /** The exporter up to its closing check: refuses bad arguments, a transaction of the wrong kind, rows out of order
      and row counts that do not match. What it builds is accepted exactly when the rows have the fields of their data
      sets and the captured texts are an aware timestamp, a revision that is not blank, and a transaction snapshot. */
  method BuildBundle<P(!new)>(world: World<P>, a: Arguments, s: State, queries: string -> string, includeMap: bool,
      rows: string -> seq<P>)
    returns (r: Option<Files>)
    requires Sane(world)
    ensures r.Some? <==> ArgumentsOk(world, a) && CapturedOk(s, includeMap) &&
                         AllStream(world, Specs(queries, includeMap), rows, s.counts)
    ensures r.Some? ==>
            (Accepts(world, r.value) <==> RowsMeet(world, Specs(queries, includeMap), rows) && TextsOk(world, s))
    ensures r.Some? ==> Declares(world, a, s, queries, includeMap, rows, r.value)
  {
    hide Sane, Streams, Accepts, RowsMeet, Specs, ArgumentsOk, Artifacts, TextsOk, Declares;
    if !ArgumentsOk(world, a) || !CapturedOk(s, includeMap) { return None; }
    var specs := Specs(queries, includeMap);
    SpecsAreGood(queries, includeMap);
    var ok, artifacts;
    ghost var m;
    ok, artifacts, m := BuildArtifacts(world, a, s, specs, includeMap, rows);
    if !ok { return None; }
    var names := Names(specs) + [LICENSE_FILE, MANIFEST_FILE];
    ArtifactNames(world, a, s, specs, includeMap, rows, artifacts, m);
    var files := SealBundle(world, artifacts, names);
    BundleDeclares(world, a, s, queries, includeMap, rows, artifacts, m, files);
    if RowsMeet(world, specs, rows) {
      BundleAccepted(world, a, s, queries, includeMap, rows, artifacts, m, files);
    } else {
      BundleRefused(world, a, s, queries, includeMap, rows, artifacts, m, files);
    }
    r := Some(files);
  }

  /** The exporter: what was built is verified, and published only if it is accepted. */
  method ExportSnapshot<P(!new)>(world: World<P>, a: Arguments, s: State, queries: string -> string, includeMap: bool,
      rows: string -> seq<P>)
    returns (r: Option<Files>)
    requires Sane(world)
    ensures r.Some? <==>
      && ArgumentsOk(world, a) && CapturedOk(s, includeMap) && TextsOk(world, s)
      && AllStream(world, Specs(queries, includeMap), rows, s.counts)
      && RowsMeet(world, Specs(queries, includeMap), rows)
    ensures r.Some? ==> Accepts(world, r.value) && Declares(world, a, s, queries, includeMap, rows, r.value)
  {
    hide Sane, AllStream, Accepts, RowsMeet, Specs, ArgumentsOk, CapturedOk, TextsOk, Declares;
    r := BuildBundle(world, a, s, queries, includeMap, rows);
    if r.Some? {
      var ok := VerifyBundle(world, r.value);
      if !ok { r := None; }
    }
  }

  /** A captured state in order but for its blank revision. */
  function BlankRevision(watermark: string): State {
    State(watermark, " ", "repeatable read", "on", "1:1:",
          map["materials" := 0, "papers" := 0, "chunks" := 0, "paper_work_map" := 0], 0)
  }

  /** An empty catalogue with a blank revision: a bundle is built, it fails its own verification, and nothing is
      published. */
  method BlankRevisionFails<P(!new)>(world: World<P>, a: Arguments, watermark: string, queries: string -> string)
    returns (built: Option<Files>, published: Option<Files>)
    requires Sane(world) && ArgumentsOk(world, a) && world.isAware(watermark)
    ensures built.Some? && !Accepts(world, built.value) && published.None?
  {
    hide Sane, ArgumentsOk, Accepts, T.Strip;
    var s, none := BlankRevision(watermark), (key: string) => [];
    BlankRevisionCaptured(watermark);
    NothingStreams(world, queries, s);
    built := BuildBundle(world, a, s, queries, false, none);
    published := ExportSnapshot(world, a, s, queries, false, none);
  }

  lemma BlankRevisionCaptured(watermark: string)
    ensures CapturedOk(BlankRevision(watermark), false) && T.Strip(BlankRevision(watermark).revision) == ""
  {
    assert T.Lower("repeatable read") == "repeatable read" && T.Lower("on") == "on";
    assert T.SkipSpace(" ", 0) == 1;
    assert " "[1..] == "";
  }

  lemma NothingStreams<P(!new)>(world: World<P>, queries: string -> string, s: State)
    requires "materials" in s.counts && s.counts["materials"] == 0 && "papers" in s.counts && s.counts["papers"] == 0
    ensures AllStream(world, Specs(queries, false), (key: string) => [], s.counts)
    ensures RowsMeet(world, Specs(queries, false), (key: string) => [])
  {
  }

  lemma ArtifactNames<P(!new)>(world: World<P>, a: Arguments, s: State, specs: seq<Spec>, includeMap: bool,
      rows: string -> seq<P>,
      artifacts: Files, m: Manifest)
    requires Artifacts(world, a, s, specs, includeMap, rows, artifacts, m)
    ensures forall name :: name in artifacts <==> name in Names(specs) + [LICENSE_FILE, MANIFEST_FILE]
  {
    hide StreamedOne, ManifestFor, LicenseFor;
  }

  /** What the finished bundle was put together from. */
  lemma BundleParts<P(!new)>(world: World<P>, a: Arguments, s: State, specs: seq<Spec>, includeMap: bool,
      rows: string -> seq<P>, artifacts: Files, m: Manifest, files: Files)
    returns (data: Files, entries: map<string, Entry>, hashes: map<string, string>)
    requires GoodSpecs(specs) && Artifacts(world, a, s, specs, includeMap, rows, artifacts, m)
    requires SealedOver(world, artifacts, Names(specs) + [LICENSE_FILE, MANIFEST_FILE], files)
    ensures Streamed(world, specs, rows, data, entries, hashes) && Holds(world, a, s, specs, data, files)
    ensures MANIFEST_FILE in files && files[MANIFEST_FILE] == world.writeManifest(m) && "chunks" in s.counts
    ensures m == ManifestFor(a, s, entries[LICENSE_KEY := LicenseEntry(world, files[LICENSE_FILE])], hashes, includeMap)
  {
    data, entries, hashes := ArtifactParts(world, a, s, specs, includeMap, rows, artifacts, m);
    ArtifactNames(world, a, s, specs, includeMap, rows, artifacts, m);
    AllNamesDiffer(specs);
    SealKeepsArtifacts(world, artifacts, Names(specs) + [LICENSE_FILE, MANIFEST_FILE], files);
    StandsInFiles(world, a, s, specs, includeMap, data, entries, hashes, artifacts, m, rows, files);
  }

  /** A bundle whose rows have their fields is accepted exactly when the captured texts are in order ... */
  lemma BundleAccepted<P(!new)>(world: World<P>, a: Arguments, s: State, queries: string -> string, includeMap: bool,
      rows: string -> seq<P>, artifacts: Files, m: Manifest, files: Files)
    requires Sane(world) && ArgumentsOk(world, a) && CapturedOk(s, includeMap)
    requires AllStream(world, Specs(queries, includeMap), rows, s.counts) &&
      RowsMeet(world, Specs(queries, includeMap), rows)
    requires Artifacts(world, a, s, Specs(queries, includeMap), includeMap, rows, artifacts, m)
    requires SealedOver(world, artifacts, Names(Specs(queries, includeMap)) + [LICENSE_FILE, MANIFEST_FILE], files)
    ensures Accepts(world, files) <==> TextsOk(world, s)
  {
    var specs := Specs(queries, includeMap);
    SpecsAreGood(queries, includeMap);
    var data, entries, hashes := BundleParts(world, a, s, specs, includeMap, rows, artifacts, m, files);
    ArtifactNames(world, a, s, specs, includeMap, rows, artifacts, m);
    AllNamesDiffer(specs);
    EntriesFound(world, a, s, specs, includeMap, rows, data, entries, hashes, files);
    hide Specs, RowsMeet, Streams, Streamed, Artifacts, GoodSpecs, Holds, ArtifactsFrom, ManifestFor, Sane, HeaderOk,
      CountsOk, KeysOk, EntriesOk, TopLevelOk, AllStream,
      SealOk, SealedOver, Names, ArgumentsOk, CapturedOk, IsLineName, NamesIn, Expected;
    NamesAreArtifacts(m, specs, artifacts);
    var license := LicenseEntry(world, files[LICENSE_FILE]);
    TopLevelFound(world, a, s, queries, includeMap, rows, data, entries, hashes, license);
    SealFound(world, Names(specs) + [LICENSE_FILE, MANIFEST_FILE], artifacts, files, m);
    HeaderFound(world, a, s, includeMap);
    ManifestReadBack(world, m);
    HeaderIs(a, s, entries[LICENSE_KEY := license], hashes, includeMap);
  }

  /** ... and one with a row that has other fields never is. */
  lemma BundleRefused<P(!new)>(world: World<P>, a: Arguments, s: State, queries: string -> string, includeMap: bool,
      rows: string -> seq<P>, artifacts: Files, m: Manifest, files: Files)
    requires Sane(world) && CapturedOk(s, includeMap)
    requires AllStream(world, Specs(queries, includeMap), rows, s.counts) &&
      !RowsMeet(world, Specs(queries, includeMap), rows)
    requires Artifacts(world, a, s, Specs(queries, includeMap), includeMap, rows, artifacts, m)
    requires SealedOver(world, artifacts, Names(Specs(queries, includeMap)) + [LICENSE_FILE, MANIFEST_FILE], files)
    ensures !Accepts(world, files)
  {
    hide Specs, Streams, StreamedOne, Artifacts, ManifestFor, Sane, Meets, IsLineName, EntryOk, EntriesOk, SealedOver,
      CapturedOk, HeaderOk, CountsOk, KeysOk, TopLevelOk, SealOk;
    var specs := Specs(queries, includeMap);
    SpecsAreGood(queries, includeMap);
    var data, entries, hashes := BundleParts(world, a, s, specs, includeMap, rows, artifacts, m, files);
    var i :| 0 <= i < |specs| && !Meets(world, specs[i], rows);
    DataEntryFound(world, a, s, specs, i, includeMap, rows, data, entries, hashes,
                   LicenseEntry(world, files[LICENSE_FILE]), files);
    EntryOutOfOrder(world, files, m, specs[i].key);
    ManifestReadBack(world, m);
  }

  lemma ArtifactParts<P(!new)>(world: World<P>, a: Arguments, s: State, specs: seq<Spec>, includeMap: bool,
      rows: string -> seq<P>,
      artifacts: Files, m: Manifest) returns (data: Files, entries: map<string, Entry>, hashes: map<string, string>)
    requires Artifacts(world, a, s, specs, includeMap, rows, artifacts, m)
    ensures Streamed(world, specs, rows, data, entries, hashes)
    ensures ArtifactsFrom(world, a, s, includeMap, data, entries, hashes, artifacts, m)
  {
    hide Streamed, ArtifactsFrom;
    data, entries, hashes :|
      && Streamed(world, specs, rows, data, entries, hashes)
      && ArtifactsFrom(world, a, s, includeMap, data, entries, hashes, artifacts, m);
  }

  lemma SealKeepsArtifacts<P>(world: World<P>, artifacts: Files, names: seq<string>, files: Files)
    requires SealedOver(world, artifacts, names, files) && forall name :: name in artifacts <==> name in names
    requires CHECKSUMS_FILE !in names && MANIFEST_HASH_FILE !in names
    ensures forall name :: name in artifacts ==>
      name != CHECKSUMS_FILE && name != MANIFEST_HASH_FILE && name in files && files[name] == artifacts[name]
  {
    hide Sort, ChecksumLine, ChecksumLines;
  }

  lemma NamesAreArtifacts(m: Manifest, specs: seq<Spec>, artifacts: Files)
    requires forall name :: name in artifacts <==> name in Names(specs) + [LICENSE_FILE, MANIFEST_FILE]
    requires NamesIn(m) == (set name | name in Names(specs)) + {LICENSE_FILE}
    requires var names := Names(specs) + [LICENSE_FILE, MANIFEST_FILE];
             forall i, j :: 0 <= i < j < |names| ==> names[i] != names[j]
    ensures NamesIn(m) == artifacts.Keys - {MANIFEST_FILE}
  {
    hide NamesIn;
    var names := Names(specs) + [LICENSE_FILE, MANIFEST_FILE];
    assert MANIFEST_FILE == names[|names| - 1] && LICENSE_FILE == names[|names| - 2];
    forall i | 0 <= i < |specs|
      ensures Names(specs)[i] != MANIFEST_FILE && Names(specs)[i] != LICENSE_FILE
    {
      assert names[i] == Names(specs)[i];
    }
  }

  lemma ManifestReadBack<P(!new)>(world: World<P>, m: Manifest)
    requires Sane(world)
    ensures world.readManifest(world.writeManifest(m)) == Some(m)
  {
  }

  lemma HeaderIs(a: Arguments, s: State, entries: map<string, Entry>, hashes: map<string, string>, includeMap: bool)
    requires LICENSE_KEY in entries && "chunks" in s.counts
    ensures ManifestFor(a, s, entries, hashes, includeMap).header == HeaderFor(a, s)
  {
  }

  lemma AllNamesDiffer(specs: seq<Spec>)
    requires GoodSpecs(specs)
    ensures var names := Names(specs) + [LICENSE_FILE, MANIFEST_FILE];
            (forall i, j :: 0 <= i < j < |names| ==> names[i] != names[j]) &&
              (forall i :: 0 <= i < |names| ==> IsLineName(names[i])) &&
            CHECKSUMS_FILE !in names && MANIFEST_HASH_FILE !in names
  {
    hide IsLineName;
    DocumentNames();
  }

  lemma StandsInFiles<P(!new)>(world: World<P>, a: Arguments, s: State, specs: seq<Spec>, includeMap: bool,
      data: Files, entries: map<string, Entry>,
      hashes: map<string, string>, artifacts: Files, m: Manifest, rows: string -> seq<P>, files: Files)
    requires GoodSpecs(specs) && Streamed(world, specs, rows, data, entries, hashes)
    requires ArtifactsFrom(world, a, s, includeMap, data, entries, hashes, artifacts, m)
    requires forall name :: name in artifacts ==> name != CHECKSUMS_FILE && name != MANIFEST_HASH_FILE
    requires forall name :: name in artifacts ==> name in files && files[name] == artifacts[name]
    ensures Holds(world, a, s, specs, data, files) && MANIFEST_FILE in files
    ensures files[MANIFEST_FILE] == world.writeManifest(m)
    ensures var license := LicenseEntry(world, files[LICENSE_FILE]);
            m == ManifestFor(a, s, entries[LICENSE_KEY := license], hashes, includeMap)
  {
    hide StreamedOne, IsLineName, LicenseFor, ManifestFor;
    assert LICENSE_FILE != MANIFEST_FILE;
    forall i | 0 <= i < |specs|
      ensures specs[i].fileName in data && specs[i].fileName in artifacts
      ensures artifacts[specs[i].fileName] == data[specs[i].fileName]
    {
      assert Names(specs)[i] in Names(specs);
      assert specs[i].fileName !in RESERVED;
    }
  }
}
