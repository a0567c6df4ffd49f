/** A snapshot bundle: what the exporter puts into it and what the verifier demands of it. */
module SnapshotBundle {
  import opened Wrappers
  import opened Order
  import opened Sorting
  import opened Utf8Order
  import R = SnapshotRows
  import opened SnapshotFiles
  import opened SnapshotChecksums
  import T = DeckText

  const EXPORT_SCHEMA := "sclib-source-export/v1"
  const EXPORTER := "sclib-ml-source-exporter/v1"
  const LICENSE_SCHEMA := "sclib-license-manifest/v1"
  const DISTRIBUTION := "not_cleared_for_public_release"
  const SEMANTICS := "catalogue_summary_not_joint_observation"

  const MATERIALS_FILE := "materials.jsonl"
  const PAPERS_FILE := "papers.jsonl"
  const WORK_MAP_FILE := "paper_work_map.jsonl"
  const LICENSE_FILE := "license_manifest.json"
  const MANIFEST_FILE := "export_manifest.json"
  const MANIFEST_HASH_FILE := "export_manifest.sha256"
  const CHECKSUMS_FILE := "checksums.sha256"

  const LICENSE_KEY := "license_manifest"
  const DATA_KEYS: set<string> := {"materials", "papers", "paper_work_map"}
  const COUNT_KEYS: set<string> := {"materials", "papers", "chunks", "paper_work_map", "material_records"}
  const CLOSED_POLICIES: set<string> :=
    {"paper_abstracts_exported", "paper_authors_exported", "chunk_payloads_exported", "vector_index_frozen"}

  /** The exact fields of a data set's rows. */
  function Fields(key: string): set<string> {
    if key == "materials" then {"id", "formula", "formula_normalized", "records"}
    else if key == "papers" then
      {"id", "source", "arxiv_id", "doi", "related_paper_id", "title", "date_submitted", "date_published", "status",
        "paper_type"}
    else {"paper_id", "work_id", "relation_type", "match_method", "review_status"}
  }

  // ---------- documents ----------

  datatype Entry = Entry(path: string, digest: string, rows: int, bytes: int)

  datatype Header = Header(schema: string, exporter: string, semantics: Option<string>, snapshotId: string,
                           gitSha: string, version: string, watermark: string, revision: string, scope: string,
                           isolation: string, readOnly: string, snapshot: string)

  datatype Manifest = Manifest(header: Header, counts: map<string, int>, queries: map<string, string>,
                               files: map<string, Entry>, licenseDigest: string, chunkCount: int, mapIncluded: bool,
                               inventoryExported: bool, vectorFrozen: bool)

  datatype License = License(schema: string, snapshotId: string, version: string, watermark: string, scope: string,
                             distribution: string, policy: map<string, bool>)

  /** A directory, by file name; the content of a file is the text its bytes decode to. */
  type Files = map<string, string>

  /** What is outside the model: the digest and the number of bytes of a content, the serialisers, and two syntax
      checks. */
  datatype World<!P> = World(digest: string -> string, size: string -> nat, codecs: string -> R.Codec<P>,
                             writeManifest: Manifest -> string, readManifest: string -> Option<Manifest>,
                             writeLicense: License -> string, readLicense: string -> Option<License>,
                             isUuid: string -> bool, isAware: string -> bool)

  ghost predicate Sane<P(!new)>(world: World<P>) {
    && (forall s :: IsDigest(world.digest(s)))
    && (forall m :: world.readManifest(world.writeManifest(m)) == Some(m))
    && (forall l :: world.readLicense(world.writeLicense(l)) == Some(l))
    && (forall key :: R.Lawful(world.codecs(key)))
  }

  // ---------- verifying ----------

  predicate IsGitSha(s: string) { |s| == 40 && forall i :: 0 <= i < |s| ==> IsHexDigit(s[i]) }

  predicate IsVersion(s: string) {
    && 1 <= |s| <= 50 && (T.IsLetter(s[0]) || T.IsDigit(s[0]))
    && forall i :: 0 <= i < |s| ==> T.IsLetter(s[i]) || T.IsDigit(s[i]) || s[i] in "._-"
  }

  predicate HeaderOk<P>(world: World<P>, h: Header) {
    && h.schema == EXPORT_SCHEMA && h.exporter == EXPORTER && (h.semantics.Some? ==> h.semantics.value == SEMANTICS)
    && world.isUuid(h.snapshotId) && IsGitSha(h.gitSha) && IsVersion(h.version)
    && world.isAware(h.watermark) && T.Strip(h.revision) != "" && h.scope in {"public", "all"}
    && T.Lower(h.isolation) == "repeatable read" && T.Lower(h.readOnly) in {"on", "true"} && h.snapshot != ""
  }

  predicate CountsOk(counts: map<string, int>) {
    forall key :: key in COUNT_KEYS ==> key in counts && counts[key] >= 0
  }

  /** The file keys: the three that must be there and nothing that is not known. */
  predicate KeysOk(m: Manifest) {
    {"materials", "papers", LICENSE_KEY} <= m.files.Keys <= DATA_KEYS + {LICENSE_KEY}
  }

  predicate LicenseOk(l: License, h: Header) {
    && l.schema == LICENSE_SCHEMA && l.snapshotId == h.snapshotId && l.version == h.version &&
         l.watermark == h.watermark
    && l.scope == h.scope && l.distribution == DISTRIBUTION
    && forall p :: p in CLOSED_POLICIES ==> p in l.policy && !l.policy[p]
  }

  predicate ContentOk<P>(world: World<P>, m: Manifest, key: string, entry: Entry, content: string) {
    if key != LICENSE_KEY then
      && R.RowCount(world.codecs(key), Fields(key), content).Some?
      && entry.rows == R.RowCount(world.codecs(key), Fields(key), content).value
      && key in m.counts && m.counts[key] == entry.rows && key in m.queries && IsDigest(m.queries[key])
    else entry.rows == 1 && world.readLicense(content).Some? && LicenseOk(world.readLicense(content).value, m.header)
  }

  /** The file of an entry, if its path is not refused. */
  function NameOf(entry: Entry): string { ArtifactName(entry.path).GetOr("") }

  predicate EntryOk<P>(world: World<P>, files: Files, m: Manifest, key: string, entry: Entry) {
    && ArtifactName(entry.path).Some? && NameOf(entry) in files && IsDigest(entry.digest)
    && world.digest(files[NameOf(entry)]) == entry.digest && world.size(files[NameOf(entry)]) == entry.bytes
    && ContentOk(world, m, key, entry, files[NameOf(entry)])
  }

  /** Every entry is met by a file of its own. */
  predicate EntriesOk<P>(world: World<P>, files: Files, m: Manifest) {
    && (forall key :: key in m.files ==> EntryOk(world, files, m, key, m.files[key]))
    && (forall k, l :: k in m.files && l in m.files && NameOf(m.files[k]) == NameOf(m.files[l]) ==> k == l)
  }

  predicate TopLevelOk(m: Manifest)
    requires LICENSE_KEY in m.files && "chunks" in m.counts && "paper_work_map" in m.counts
  {
    && m.licenseDigest == m.files[LICENSE_KEY].digest && m.chunkCount == m.counts["chunks"]
    && m.queries.Keys == m.files.Keys - {LICENSE_KEY}
    && m.mapIncluded == ("paper_work_map" in m.files) && (!m.mapIncluded ==> m.counts["paper_work_map"] == 0)
    && !m.inventoryExported && !m.vectorFrozen
  }

  /** The files that the entries name. */
  function NamesIn(m: Manifest): set<string> {
    set key | key in m.files :: NameOf(m.files[key])
  }

  /** The digests of all artifacts and the manifest. */
  function Expected<P>(world: World<P>, files: Files, m: Manifest): map<string, string> {
    map name | name in files && (name in NamesIn(m) || name == MANIFEST_FILE) :: world.digest(files[name])
  }

  /** The two hash files, and nothing else in the directory. */
  predicate SealOk<P>(world: World<P>, files: Files, expected: map<string, string>) {
    && MANIFEST_FILE in files && MANIFEST_HASH_FILE in files && CHECKSUMS_FILE in files
    && Translated(files[MANIFEST_HASH_FILE]) == ChecksumLine(MANIFEST_FILE, world.digest(files[MANIFEST_FILE]))
    && ParseChecksums(files[CHECKSUMS_FILE]) == Some(expected)
    && files.Keys == expected.Keys + {MANIFEST_HASH_FILE, CHECKSUMS_FILE}
  }

  predicate Accepts<P>(world: World<P>, files: Files) {
    MANIFEST_FILE in files &&
    match world.readManifest(files[MANIFEST_FILE])
    case None => false
    case Some(m) =>
      && HeaderOk(world, m.header) && CountsOk(m.counts) && KeysOk(m) && EntriesOk(world, files, m)
      && TopLevelOk(m) && SealOk(world, files, Expected(world, files, m))
  }

  /** The entries of these keys are in order, and their digests collected. */
  ghost predicate Checked<P(!new)>(world: World<P>, files: Files, m: Manifest, keys: set<string>,
      digests: map<string, string>)
  {
    && keys <= m.files.Keys
    && (forall key :: key in keys ==> EntryOk(world, files, m, key, m.files[key]) && NameOf(m.files[key]) in digests)
    && (forall k, l :: k in keys && l in keys && NameOf(m.files[k]) == NameOf(m.files[l]) ==> k == l)
    && (forall name :: name in digests ==>
         name in files && digests[name] == world.digest(files[name]) && SeenName(m, keys, name))
  }

  ghost predicate SeenName(m: Manifest, keys: set<string>, name: string)
    requires keys <= m.files.Keys
  {
    exists k :: k in keys && NameOf(m.files[k]) == name
  }

  lemma CheckedStep<P(!new)>(world: World<P>, files: Files, m: Manifest, keys: set<string>,
      digests: map<string, string>, key: string)
    requires Checked(world, files, m, keys, digests) && key in m.files && key !in keys
    requires NameOf(m.files[key]) !in digests && EntryOk(world, files, m, key, m.files[key])
    ensures NameOf(m.files[key]) in files
    ensures var name := NameOf(m.files[key]);
            Checked(world, files, m, keys + {key}, digests[name := world.digest(files[name])])
  {
    hide EntryOk, ArtifactName;
    EntryThere(world, files, m, key, m.files[key]);
    var name := NameOf(m.files[key]);
    var more := digests[name := world.digest(files[name])];
    forall other | other in more ensures SeenName(m, keys + {key}, other) {
      if other == name {
        assert key in keys + {key};
      } else {
        var k :| k in keys && NameOf(m.files[k]) == other;
        assert k in keys + {key};
      }
    }
  }

  lemma AllChecked<P(!new)>(world: World<P>, files: Files, m: Manifest, digests: map<string, string>)
    requires Checked(world, files, m, m.files.Keys, digests)
    ensures EntriesOk(world, files, m)
    ensures digests == map name | name in files && name in NamesIn(m) :: world.digest(files[name])
  {
    hide EntryOk;
    forall name | name in NamesIn(m) ensures name in digests {}
    forall name | name in digests ensures name in NamesIn(m) { assert SeenName(m, m.files.Keys, name); }
  }

  lemma RepeatedName<P(!new)>(world: World<P>, files: Files, m: Manifest, keys: set<string>,
      digests: map<string, string>, key: string)
    requires Checked(world, files, m, keys, digests) && key in m.files && key !in keys &&
      NameOf(m.files[key]) in digests
    ensures !EntriesOk(world, files, m)
  {
    hide EntryOk;
    assert SeenName(m, keys, NameOf(m.files[key]));
  }

  lemma NamelessEntry<P>(world: World<P>, files: Files, m: Manifest, key: string)
    requires key in m.files && ArtifactName(m.files[key].path).None?
    ensures !EntriesOk(world, files, m)
  {
    hide ArtifactName, ContentOk, IsDigest;
    assert !EntryOk(world, files, m, key, m.files[key]);
  }

  lemma EntryOutOfOrder<P>(world: World<P>, files: Files, m: Manifest, key: string)
    requires key in m.files && !EntryOk(world, files, m, key, m.files[key])
    ensures !EntriesOk(world, files, m)
  {
    hide EntryOk;
  }

  /** The verifier's loop over the entries: the digests it collects, or `None` where it raises. */
  method VerifyEntries<P(!new)>(world: World<P>, files: Files, m: Manifest) returns (r: Option<map<string, string>>)
    ensures r.Some? <==> EntriesOk(world, files, m)
    ensures r.Some? ==> r.value == map name | name in files && name in NamesIn(m) :: world.digest(files[name])
  {
    hide EntryOk, Checked, NamesIn, ArtifactName, EntriesOk;
    var digests: map<string, string> := map[];
    var todo := m.files.Keys;
    NothingChecked(world, files, m);
    assert m.files.Keys - todo == {};
    while todo != {}
      invariant todo <= m.files.Keys && Checked(world, files, m, m.files.Keys - todo, digests)
    {
      var key :| key in todo;
      var entry := m.files[key];
      ghost var done := m.files.Keys - todo;
      var name := ArtifactName(entry.path);
      if name.None? {
        NamelessEntry(world, files, m, key);
        return None;
      }
      if name.value in digests {
        RepeatedName(world, files, m, done, digests, key);
        return None;
      }
      if !EntryOk(world, files, m, key, entry) {
        EntryOutOfOrder(world, files, m, key);
        return None;
      }
      CheckedStep(world, files, m, done, digests, key);
      digests := digests[name.value := world.digest(files[name.value])];
      todo := todo - {key};
      assert m.files.Keys - todo == done + {key};
    }
    assert m.files.Keys - todo == m.files.Keys;
    AllChecked(world, files, m, digests);
    r := Some(digests);
  }

  lemma NothingChecked<P(!new)>(world: World<P>, files: Files, m: Manifest)
    ensures Checked(world, files, m, {}, map[])
  {
  }

  lemma EntryThere<P>(world: World<P>, files: Files, m: Manifest, key: string, entry: Entry)
    requires EntryOk(world, files, m, key, entry)
    ensures NameOf(entry) in files
  {
  }

  /** The verifier. */
  method VerifyBundle<P(!new)>(world: World<P>, files: Files) returns (ok: bool)
    ensures ok <==> Accepts(world, files)
  {
    hide HeaderOk, CountsOk, EntriesOk, SealOk, TopLevelOk;
    if MANIFEST_FILE !in files { return false; }
    var read := world.readManifest(files[MANIFEST_FILE]);
    if read.None? { return false; }
    var m := read.value;
    if !HeaderOk(world, m.header) || !CountsOk(m.counts) || !KeysOk(m) { return false; }
    var digests := VerifyEntries(world, files, m);
    if digests.None? { return false; }
    CountsThere(m.counts);
    if !TopLevelOk(m) { return false; }
    var expected := digests.value[MANIFEST_FILE := world.digest(files[MANIFEST_FILE])];
    assert expected == Expected(world, files, m);
    ok := SealOk(world, files, expected);
  }

  lemma CountsThere(counts: map<string, int>)
    requires CountsOk(counts)
    ensures "chunks" in counts && "paper_work_map" in counts
  {
    assert "chunks" in COUNT_KEYS && "paper_work_map" in COUNT_KEYS;
  }

  // ---------- what acceptance means ----------

  /** The license is not cleared for release and says of abstracts, authors, payloads and vectors that none is there. */
  ghost predicate IsClosed(l: License) {
    && l.schema == "sclib-license-manifest/v1" && l.distribution == "not_cleared_for_public_release"
    && "paper_abstracts_exported" in l.policy && !l.policy["paper_abstracts_exported"]
    && "paper_authors_exported" in l.policy && !l.policy["paper_authors_exported"]
    && "chunk_payloads_exported" in l.policy && !l.policy["chunk_payloads_exported"]
    && "vector_index_frozen" in l.policy && !l.policy["vector_index_frozen"]
  }

  /** The exact fields of each data set's rows. */
  lemma FieldNames()
    ensures Fields("materials") == {"id", "formula", "formula_normalized", "records"}
    ensures Fields("papers") == {"id", "source", "arxiv_id", "doi", "related_paper_id", "title", "date_submitted",
                                 "date_published", "status", "paper_type"}
    ensures Fields("paper_work_map") == {"paper_id", "work_id", "relation_type", "match_method", "review_status"}
  {
  }

  lemma ClosedExactlyWhen(l: License, h: Header)
    ensures LicenseOk(l, h) <==>
      && IsClosed(l) && l.snapshotId == h.snapshotId && l.version == h.version && l.watermark == h.watermark
      && l.scope == h.scope
  {
  }

  /** Every accepted bundle has a closed license that agrees with the manifest, under the digest given there. */
  lemma AcceptedLicense<P>(world: World<P>, files: Files, m: Manifest) returns (name: string, l: License)
    requires Accepts(world, files) && world.readManifest(files[MANIFEST_FILE]) == Some(m)
    ensures name in files && world.digest(files[name]) == m.licenseDigest && world.readLicense(files[name]) == Some(l)
    ensures IsClosed(l)
    ensures l.snapshotId == m.header.snapshotId && l.version == m.header.version && l.scope == m.header.scope
    ensures l.watermark == m.header.watermark
  {
    hide HeaderOk, CountsOk, SealOk, LicenseOk, IsClosed, ArtifactName, IsDigest;
    assert EntryOk(world, files, m, LICENSE_KEY, m.files[LICENSE_KEY]);
    name := NameOf(m.files[LICENSE_KEY]);
    l := world.readLicense(files[name]).value;
    ClosedExactlyWhen(l, m.header);
  }

  /** Every accepted bundle's manifest counts the rows of every data file, and says that neither vectors nor the chunk
      inventory are in it. */
  lemma AcceptedManifest<P>(world: World<P>, files: Files, m: Manifest)
    requires Accepts(world, files) && world.readManifest(files[MANIFEST_FILE]) == Some(m)
    ensures {"materials", "papers", "license_manifest"} <= m.files.Keys
    ensures m.files.Keys <= {"materials", "papers", "paper_work_map", "license_manifest"}
    ensures m.queries.Keys == m.files.Keys - {"license_manifest"} && (m.mapIncluded <==> "paper_work_map" in m.files)
    ensures !m.inventoryExported && !m.vectorFrozen
    ensures forall key :: key in {"materials", "papers", "chunks", "paper_work_map", "material_records"} ==>
      key in m.counts && m.counts[key] >= 0
    ensures m.chunkCount == m.counts["chunks"] && (!m.mapIncluded ==> m.counts["paper_work_map"] == 0)
    ensures forall key :: key in m.files && key != "license_manifest" ==>
      && key in m.counts && key in m.queries && m.files[key].rows == m.counts[key]
      && NameOf(m.files[key]) in files
      && R.RowCount(world.codecs(key), Fields(key), files[NameOf(m.files[key])]) == Some(m.counts[key])
      && world.digest(files[NameOf(m.files[key])]) == m.files[key].digest
      && world.size(files[NameOf(m.files[key])]) == m.files[key].bytes
  {
    hide HeaderOk, SealOk, LicenseOk, ArtifactName, R.RowCount, Fields, IsDigest;
    CountsThere(m.counts);
    forall key | key in m.files && key != "license_manifest"
      ensures key in m.counts && key in m.queries && m.files[key].rows == m.counts[key] && NameOf(m.files[key]) in files
      ensures R.RowCount(world.codecs(key), Fields(key), files[NameOf(m.files[key])]) == Some(m.counts[key])
      ensures world.digest(files[NameOf(m.files[key])]) == m.files[key].digest
      ensures world.size(files[NameOf(m.files[key])]) == m.files[key].bytes
    {
      assert EntryOk(world, files, m, key, m.files[key]);
    }
  }

  /** The header of every accepted bundle. */
  lemma AcceptedHeader<P>(world: World<P>, files: Files, m: Manifest)
    requires Accepts(world, files) && world.readManifest(files[MANIFEST_FILE]) == Some(m)
    ensures m.header.schema == "sclib-source-export/v1" && m.header.exporter == "sclib-ml-source-exporter/v1"
    ensures m.header.semantics in {None, Some("catalogue_summary_not_joint_observation")}
    ensures m.header.scope == "public" || m.header.scope == "all"
    ensures world.isUuid(m.header.snapshotId) && world.isAware(m.header.watermark) && m.header.snapshot != ""
    ensures |m.header.gitSha| == 40 && 1 <= |m.header.version| <= 50
    ensures forall c :: c in m.header.gitSha ==> '0' <= c <= '9' || 'a' <= c <= 'f'
    ensures forall c :: c in m.header.version ==>
      '0' <= c <= '9' || 'a' <= c <= 'z' || 'A' <= c <= 'Z' || c == '.' || c == '_' || c == '-'
    ensures exists c :: c in m.header.revision && !T.IsSpace(c)
  {
    hide CountsOk, EntriesOk, KeysOk, TopLevelOk, SealOk;
    StripNotEmpty(m.header.revision);
  }

  lemma StripNotEmpty(s: string)
    requires T.Strip(s) != ""
    ensures exists c :: c in s && !T.IsSpace(c)
  {
    var before, after := T.StripMeans(s);
    assert T.Strip(s)[0] in s;
  }

  // ---------- tampering ----------

  /** Two bundles have no pair of files at one name that differ and share a digest. */
  predicate NoCollision<P>(world: World<P>, a: Files, b: Files) {
    forall name :: name in a && name in b && world.digest(a[name]) == world.digest(b[name]) ==> a[name] == b[name]
  }

  /** What an accepted bundle's manifest says of its files. */
  lemma AcceptedFiles<P>(world: World<P>, files: Files) returns (m: Manifest)
    requires Accepts(world, files)
    ensures MANIFEST_FILE in files && world.readManifest(files[MANIFEST_FILE]) == Some(m)
    ensures EntriesOk(world, files, m) && SealOk(world, files, Expected(world, files, m))
  {
    hide HeaderOk, CountsOk, TopLevelOk, EntriesOk, SealOk, KeysOk;
    m := world.readManifest(files[MANIFEST_FILE]).value;
  }

  lemma ArtifactsAgree<P>(world: World<P>, a: Files, b: Files, m: Manifest, name: string)
    requires EntriesOk(world, a, m) && EntriesOk(world, b, m) && NoCollision(world, a, b) && name in NamesIn(m)
    ensures name in a && name in b && a[name] == b[name]
  {
    hide ContentOk, IsDigest, IsSafeName;
    var key :| key in m.files && NameOf(m.files[key]) == name;
    assert EntryOk(world, a, m, key, m.files[key]) && EntryOk(world, b, m, key, m.files[key]);
  }

  /** The same directory, but for the line ends of the manifest's hash file and the layout of the checksum file. */
  predicate SameBundle(m: Manifest, a: Files, b: Files) {
    && NamesIn(m) + {MANIFEST_FILE, MANIFEST_HASH_FILE, CHECKSUMS_FILE} <= a.Keys == b.Keys
    && (forall name :: name in NamesIn(m) + {MANIFEST_FILE} ==> a[name] == b[name])
    && Translated(a[MANIFEST_HASH_FILE]) == Translated(b[MANIFEST_HASH_FILE])
    && ParseChecksums(a[CHECKSUMS_FILE]) == ParseChecksums(b[CHECKSUMS_FILE])
  }

  lemma AcceptedIsSame<P>(world: World<P>, a: Files, b: Files, m: Manifest)
    requires Accepts(world, a) && Accepts(world, b) && NoCollision(world, a, b)
    requires a[MANIFEST_FILE] == b[MANIFEST_FILE] && world.readManifest(a[MANIFEST_FILE]) == Some(m)
    ensures SameBundle(m, a, b)
    ensures a.Keys == NamesIn(m) + {MANIFEST_FILE, MANIFEST_HASH_FILE, CHECKSUMS_FILE}
  {
    hide Accepts, EntriesOk, NoCollision, NamesIn, ParseChecksums, ChecksumLine, Translated;
    var n := AcceptedFiles(world, a);
    n := AcceptedFiles(world, b);
    forall name | name in NamesIn(m)
      ensures name in a && name in b && a[name] == b[name]
    {
      ArtifactsAgree(world, a, b, m, name);
    }
    assert Expected(world, a, m) == Expected(world, b, m);
    assert Expected(world, a, m).Keys == NamesIn(m) + {MANIFEST_FILE};
  }

  lemma SameEntries<P>(world: World<P>, a: Files, b: Files, m: Manifest)
    requires EntriesOk(world, a, m) && SameBundle(m, a, b)
    ensures EntriesOk(world, b, m)
  {
    hide ContentOk, IsDigest, ArtifactName, ParseChecksums, Translated;
    forall key | key in m.files ensures EntryOk(world, b, m, key, m.files[key]) {
      assert EntryOk(world, a, m, key, m.files[key]);
      assert NameOf(m.files[key]) in NamesIn(m);
    }
  }

  lemma SameIsAccepted<P>(world: World<P>, a: Files, b: Files, m: Manifest)
    requires Accepts(world, a) && SameBundle(m, a, b) && world.readManifest(a[MANIFEST_FILE]) == Some(m)
    ensures Accepts(world, b)
  {
    hide HeaderOk, CountsOk, KeysOk, EntriesOk, TopLevelOk, NamesIn, ParseChecksums, ChecksumLine, Translated;
    SameEntries(world, a, b, m);
    assert Expected(world, b, m) == Expected(world, a, m);
  }

  /** A manifest fixes its bundle: a directory with the manifest of an accepted one is accepted exactly when it is the
      same, up to the line ends of the hash file and the layout of the checksum file. */
  lemma ManifestFixesBundle<P>(world: World<P>, a: Files, b: Files, m: Manifest)
    requires Accepts(world, a) && world.readManifest(a[MANIFEST_FILE]) == Some(m) && NoCollision(world, a, b)
    requires MANIFEST_FILE in b && b[MANIFEST_FILE] == a[MANIFEST_FILE]
    ensures Accepts(world, b) <==> SameBundle(m, a, b)
    ensures Accepts(world, b) ==>
      forall name :: name in a && name !in {MANIFEST_HASH_FILE, CHECKSUMS_FILE} ==> name in b && a[name] == b[name]
  {
    hide Accepts, NoCollision, NamesIn, ParseChecksums, Translated;
    if Accepts(world, b) { AcceptedIsSame(world, a, b, m); }
    if SameBundle(m, a, b) { SameIsAccepted(world, a, b, m); }
  }

  /** So the hash file of an accepted bundle may end its line with a carriage return as well. */
  lemma HashFileMayEndInReturn<P>(world: World<P>, a: Files, m: Manifest)
    requires Accepts(world, a) && world.readManifest(a[MANIFEST_FILE]) == Some(m)
    requires MANIFEST_HASH_FILE !in NamesIn(m) && IsDigest(world.digest(a[MANIFEST_FILE]))
    ensures Accepts(world, a[MANIFEST_HASH_FILE := world.digest(a[MANIFEST_FILE]) + "  " + MANIFEST_FILE + "\r\n"])
  {
    hide EntriesOk, HeaderOk, CountsOk, KeysOk, TopLevelOk, ParseChecksums, NamesIn, Translated;
    var digest := world.digest(a[MANIFEST_FILE]);
    var line := digest + "  " + MANIFEST_FILE;
    var b := a[MANIFEST_HASH_FILE := line + "\r\n"];
    assert MANIFEST_FILE != MANIFEST_HASH_FILE && CHECKSUMS_FILE != MANIFEST_HASH_FILE;
    NoReturnInLine(digest);
    LineEndsAgree(line);
    assert Translated(a[MANIFEST_HASH_FILE]) == line + "\n";
    AcceptedIsSame(world, a, a, m);
    SameIsAccepted(world, a, b, m);
  }

  lemma NoReturnInLine(digest: string)
    requires IsDigest(digest)
    ensures '\r' !in digest + "  " + MANIFEST_FILE
  {
    assert '\r' !in MANIFEST_FILE;
    assert !IsHexDigit('\r');
  }
}
