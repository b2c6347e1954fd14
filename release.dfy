/** The release script's own logic (prepare_release.py): the thousands
    separators of the documentation, the catalogue-version ranges, the
    statistics read back from `validation_report.json`, the names of an
    archive and of its entries, the checksum keys, and the release state
    kept in `.zenodo_state.json`. Hashing, zip writing, templates and git
    are outside the model; their results are inputs. */
module Release {
  import opened Wrappers
  import opened Text

  // ---------------------------------------------------------------------
  // format_number (prepare_release.py:95-102)
  // ---------------------------------------------------------------------

  predicate IsDigit(c: char) {
    '0' <= c <= '9'
  }

  predicate AllDigits(s: string) {
    forall i :: 0 <= i < |s| ==> IsDigit(s[i])
  }

  function DigitChar(d: nat): (c: char)
    requires d < 10
    ensures IsDigit(c) && c as int - '0' as int == d
  {
    (('0' as int) + d) as char
  }

  /** The decimal digits of `n`, most significant first, without leading
      zeros (`"0"` for zero). */
  function DecimalDigits(n: nat): (s: string)
    ensures |s| >= 1 && AllDigits(s)
    ensures |s| > 1 ==> s[0] != '0'
    decreases n
  {
    if n < 10 then [DigitChar(n)] else DecimalDigits(n / 10) + [DigitChar(n % 10)]
  }

  /** The number a string of decimal digits denotes. */
  function DigitsValue(s: string): int
    decreases |s|
  {
    if s == [] then 0 else DigitsValue(s[..|s| - 1]) * 10 + (s[|s| - 1] as int - '0' as int)
  }

  /** Digits in groups of three from the right, separated by commas. */
  function Group(ds: string): (r: string)
    ensures |ds| >= 1 ==> |r| >= 1 && r[0] == ds[0]
    decreases |ds|
  {
    if |ds| <= 3 then ds else Group(ds[..|ds| - 3]) + "," + ds[|ds| - 3..]
  }

  /** The text with its commas removed. */
  function Ungroup(g: string): (r: string)
    ensures ',' !in r
    decreases |g|
  {
    if g == [] then []
    else if g[|g| - 1] == ',' then Ungroup(g[..|g| - 1])
    else Ungroup(g[..|g| - 1]) + [g[|g| - 1]]
  }

  /** `f"{n:,}"`: an optional minus sign, then the digits of `|n|` with a
      comma between each group of three counted from the right. */
  function FormatNumber(n: int): (r: string)
    ensures |r| >= 1
    ensures r[0] == '-' <==> n < 0
  {
    if n < 0 then "-" + Group(DecimalDigits(-n)) else Group(DecimalDigits(n))
  }

  /** Reading a formatted number back: the sign, then the digits with the
      commas dropped. */
  function ParseNumber(r: string): int {
    if |r| > 0 && r[0] == '-' then -DigitsValue(Ungroup(r[1..])) else DigitsValue(Ungroup(r))
  }

  lemma {:induction false} DigitsRoundTrip(n: nat)
    ensures DigitsValue(DecimalDigits(n)) == n
    decreases n
  {
    if n >= 10 {
      DigitsRoundTrip(n / 10);
      var s := DecimalDigits(n);
      assert s[..|s| - 1] == DecimalDigits(n / 10);
    }
  }

  lemma {:induction false} UngroupAppend(a: string, b: string)
    ensures Ungroup(a + b) == Ungroup(a) + Ungroup(b)
    decreases |b|
  {
    if b == [] {
      assert a + b == a;
    } else {
      UngroupAppend(a, b[..|b| - 1]);
      assert (a + b)[..|a + b| - 1] == a + b[..|b| - 1];
    }
  }

  lemma {:induction false} UngroupDigits(ds: string)
    requires ',' !in ds
    ensures Ungroup(ds) == ds
    decreases |ds|
  {
    if ds != [] {
      UngroupDigits(ds[..|ds| - 1]);
    }
  }

  /** Dropping the separators gives back the digits. */
  lemma {:induction false} UngroupGroup(ds: string)
    requires ',' !in ds
    ensures Ungroup(Group(ds)) == ds
    decreases |ds|
  {
    if |ds| <= 3 {
      UngroupDigits(ds);
    } else {
      var hi, lo := ds[..|ds| - 3], ds[|ds| - 3..];
      UngroupGroup(hi);
      UngroupAppend(Group(hi) + ",", lo);
      UngroupAppend(Group(hi), ",");
      UngroupDigits(lo);
      assert hi + lo == ds;
    }
  }

  lemma CountCharAppend(a: string, b: string, c: char)
    ensures CountChar(a + b, c) == CountChar(a, c) + CountChar(b, c)
  {
    if a == [] {
      assert a + b == b;
    } else {
      assert (a + b)[0] == a[0];
      assert (a + b)[1..] == a[1..] + b;
      CountCharAppend(a[1..], b, c);
    }
  }

  /** One comma per complete group of three after the leading group. */
  lemma {:induction false} GroupCommas(ds: string)
    requires |ds| >= 1 && ',' !in ds
    ensures CountChar(Group(ds), ',') == (|ds| - 1) / 3
    decreases |ds|
  {
    if |ds| > 3 {
      var hi, lo := ds[..|ds| - 3], ds[|ds| - 3..];
      GroupCommas(hi);
      CountCharAppend(Group(hi) + ",", lo, ',');
      CountCharAppend(Group(hi), ",", ',');
      assert ',' !in lo by {
        forall i | 0 <= i < |lo| ensures lo[i] != ',' { assert lo[i] == ds[|ds| - 3 + i]; }
      }
    }
  }

  lemma DigitsHaveNoComma(s: string)
    requires AllDigits(s)
    ensures ',' !in s
  {
  }

  /** Reading the formatted text back gives the number: the separators
      carry no value, and nothing is lost. */
  lemma FormatNumberRoundTrip(n: int)
    ensures ParseNumber(FormatNumber(n)) == n
  {
    var m := if n < 0 then -n else n;
    DigitsHaveNoComma(DecimalDigits(m));
    UngroupGroup(DecimalDigits(m));
    DigitsRoundTrip(m);
    if n < 0 {
      assert FormatNumber(n)[1..] == Group(DecimalDigits(m));
    } else {
      assert Group(DecimalDigits(m)) == FormatNumber(n);
      if |FormatNumber(n)| > 0 && FormatNumber(n)[0] == '-' {
        assert false;
      }
    }
  }

  /** The number of separators: one per three digits beyond the first
      group. */
  lemma FormatNumberCommas(n: nat)
    ensures CountChar(FormatNumber(n), ',') == (|DecimalDigits(n)| - 1) / 3
  {
    DigitsHaveNoComma(DecimalDigits(n));
    GroupCommas(DecimalDigits(n));
  }

  lemma DigitsExample()
    ensures DecimalDigits(2915515) == "2915515"
  {
    assert DecimalDigits(2915) == "2915" by {
      assert DecimalDigits(2) == "2";
      assert DecimalDigits(29) == "29";
      assert DecimalDigits(291) == "291";
    }
    assert DecimalDigits(29155) == "29155";
    assert DecimalDigits(291551) == "291551";
  }

  /** The example of the docstring. */
  lemma FormatNumberExample()
    ensures FormatNumber(2915515) == "2,915,515"
  {
    DigitsExample();
    assert Group("2915") == "2,915" by {
      assert Group("2") == "2";
      assert "2915"[..1] == "2" && "2915"[1..] == "915";
    }
    assert Group("2915515") == "2,915,515" by {
      assert "2915515"[..4] == "2915" && "2915515"[4..] == "515";
    }
  }

  // ---------------------------------------------------------------------
  // format_version_range (prepare_release.py:176-188)
  // ---------------------------------------------------------------------

  /** The first of a sorted set is its least element. */
  lemma OrderedFirst(s: set<string>)
    requires s != {}
    ensures Ordered(s)[0] == Least(s)
  {
  }

  /** The last of a sorted set is its greatest element. */
  lemma OrderedLast(s: set<string>)
    requires s != {}
    ensures Ordered(s)[|Ordered(s)| - 1] == Greatest(s)
  {
    var r := Ordered(s);
    var m := r[|r| - 1];
    forall x | x in s ensures LessEq(x, m) {
      var i :| 0 <= i < |r| && r[i] == x;
    }
    GreatestUnique(m, Greatest(s), s);
  }

  /** `format_version_range`: `"unknown"` for no versions, the version
      itself for one, and otherwise the smallest and the largest under
      string ordering joined by `-`; the counts play no part. */
  function FormatVersionRange(dist: map<string, nat>): (r: string)
    ensures |dist| == 0 ==> r == "unknown"
    ensures |dist| == 1 ==> r in dist
    ensures |dist| >= 2 ==> r == Least(dist.Keys) + "-" + Greatest(dist.Keys)
  {
    var versions := Ordered(dist.Keys);
    assert |dist.Keys| == |dist|;
    if |versions| == 0 then "unknown"
    else if |versions| == 1 then versions[0]
    else
      OrderedFirst(dist.Keys);
      OrderedLast(dist.Keys);
      versions[0] + "-" + versions[|versions| - 1]
  }

  /** Only the set of versions matters: two distributions over the same
      versions format alike, whatever their counts. */
  lemma FormatVersionRangeIgnoresCounts(a: map<string, nat>, b: map<string, nat>)
    requires a.Keys == b.Keys
    ensures FormatVersionRange(a) == FormatVersionRange(b)
  {
    assert |a| == |a.Keys| == |b.Keys| == |b|;
  }

  // ---------------------------------------------------------------------
  // extract_statistics (prepare_release.py:130-173)
  // ---------------------------------------------------------------------

  /** The JSON values `validation_report.json` holds; numbers are whole
      (the coverage percentages pass through unread). */
  datatype Json = Number(n: int) | Str(s: string) | Object(fields: map<string, Json>) | Array(items: seq<Json>)

  /** The template statistics (prepare_release.py:153-172). */
  datatype Statistics = Statistics(
    datasetsCount: Json,
    formsCount: Json,
    languagesCount: Json,
    parametersCount: Json,
    cognatesDatasets: Json,
    sourcesEntries: nat,
    glottologCoverage: Json,
    concepticonCoverage: Json,
    cognateCoverage: Json,
    segmentsCoverage: Json,
    alignmentCoverage: Json,
    orphanLanguages: Json,
    orphanParameters: Json,
    glottologVersionDist: Json,
    concepticonVersionDist: Json,
    cltsVersionDist: Json)

  /** `d.get(key, default)`. */
  function GetOr(d: map<string, Json>, key: string, default: Json): Json {
    if key in d then d[key] else default
  }

  /** `report.get(section, {})`, which must be an object for the `.get`
      calls that follow (a section of another type raises
      AttributeError). */
  function Section(report: map<string, Json>, section: string): (r: Result<map<string, Json>>)
    ensures section !in report ==> r == Ok(map[])
    ensures r.Err? <==> section in report && !report[section].Object?
  {
    var v := GetOr(report, section, Object(map[]));
    if v.Object? then Ok(v.fields) else Err("AttributeError: " + section)
  }

  const Zero: Json := Number(0)
  const NoVersions: Json := Object(map[])

  /** `extract_statistics`: every figure is looked up in its section with
      0 (or `{}` for a distribution) as the default; `sources` is the text
      of `sources.bib` when it exists, and its entry count is its number
      of `@`. */
  function ExtractStatistics(report: map<string, Json>, sources: Option<string>): (r: Result<Statistics>)
    ensures r.Err? <==> exists s :: s in ["summary", "data_quality", "referential_integrity", "version_distribution"]
                                      && s in report && !report[s].Object?
    ensures r.Ok? ==> r.value.sourcesEntries == if sources.Some? then CountChar(sources.value, '@') else 0
  {
    var summary :- Section(report, "summary");
    var quality :- Section(report, "data_quality");
    var integrity :- Section(report, "referential_integrity");
    var versions :- Section(report, "version_distribution");
    var sourcesCount := if sources.Some? then CountChar(sources.value, '@') else 0;
    Ok(Statistics(
      GetOr(summary, "total_datasets", Zero),
      GetOr(summary, "total_forms", Zero),
      GetOr(summary, "total_languages", Zero),
      GetOr(summary, "total_parameters", Zero),
      GetOr(summary, "datasets_with_cognates", Zero),
      sourcesCount,
      GetOr(quality, "glottocode_coverage_percent", Zero),
      GetOr(quality, "concepticon_coverage_percent", Zero),
      GetOr(quality, "forms_with_cognate_data_percent", Zero),
      GetOr(quality, "forms_with_segments_percent", Zero),
      GetOr(quality, "forms_with_alignment_percent", Zero),
      GetOr(integrity, "orphan_language_ids", Zero),
      GetOr(integrity, "orphan_parameter_ids", Zero),
      GetOr(versions, "glottolog", NoVersions),
      GetOr(versions, "concepticon", NoVersions),
      GetOr(versions, "clts", NoVersions)))
  }

  /** A report without any of the four sections yields zeros and empty
      distributions throughout. */
  lemma ExtractStatisticsDefaults(report: map<string, Json>)
    requires forall s :: s in report ==> s !in ["summary", "data_quality", "referential_integrity", "version_distribution"]
    ensures ExtractStatistics(report, None)
      == Ok(Statistics(Zero, Zero, Zero, Zero, Zero, 0, Zero, Zero, Zero, Zero, Zero, Zero, Zero, NoVersions, NoVersions, NoVersions))
  {
    assert "summary" !in report && "data_quality" !in report;
    assert "referential_integrity" !in report && "version_distribution" !in report;
  }

  /** A figure present in the summary is passed through as written. */
  lemma ExtractStatisticsReadsSummary(report: map<string, Json>, summary: map<string, Json>, sources: Option<string>)
    requires "summary" in report && report["summary"] == Object(summary)
    requires ExtractStatistics(report, sources).Ok?
    ensures var st := ExtractStatistics(report, sources).value;
      && ("total_datasets" in summary ==> st.datasetsCount == summary["total_datasets"])
      && ("total_forms" in summary ==> st.formsCount == summary["total_forms"])
      && ("total_languages" in summary ==> st.languagesCount == summary["total_languages"])
      && ("total_parameters" in summary ==> st.parametersCount == summary["total_parameters"])
      && ("datasets_with_cognates" in summary ==> st.cognatesDatasets == summary["datasets_with_cognates"])
  {
  }

  // ---------------------------------------------------------------------
  // create_archive naming (prepare_release.py:250-294)
  // ---------------------------------------------------------------------

  /** The names `create_archive` derives from a version `L.D`. */
  datatype ArchiveNaming = ArchiveNaming(letter: string, date: string, archiveName: string, baseDir: string)

  /** `version.split(".")` must give exactly two parts, the series letter
      and the date; the archive is `arcaverborum.L.collection.D.zip` and
      its entries live under `arcaverborum-L-collection-D/`. */
  function ArchiveNames(version: string, collection: string): (r: Result<ArchiveNaming>)
    ensures r.Ok? <==> CountChar(version, '.') == 1
    ensures r.Ok? ==> && r.value.letter + "." + r.value.date == version
                      && '.' !in r.value.letter && '.' !in r.value.date
    ensures r.Ok? ==> r.value.archiveName == "arcaverborum." + r.value.letter + "." + collection + "." + r.value.date + ".zip"
    ensures r.Ok? ==> r.value.baseDir == "arcaverborum-" + r.value.letter + "-" + collection + "-" + r.value.date
  {
    var parts := Split(version, '.');
    SplitCount(version, '.');
    if |parts| != 2 then Err("Invalid version format: " + version + ". Expected format: LETTER.YYYYMMDD")
    else
      var letter, date := parts[0], parts[1];
      JoinSplit(version, '.');
      SplitPiecesFree(version, '.');
      assert Join(".", parts) == letter + "." + date by {
        assert parts[1..] == [date];
      }
      Ok(ArchiveNaming(letter, date,
        "arcaverborum." + letter + "." + collection + "." + date + ".zip",
        "arcaverborum-" + letter + "-" + collection + "-" + date))
  }

  /** The letter and the date are recovered from the archive name: it
      splits on `.` into the fixed prefix, the letter, the collection, the
      date and `zip`, when the collection holds no `.`. */
  lemma ArchiveNameSplits(version: string, collection: string)
    requires ArchiveNames(version, collection).Ok? && '.' !in collection
    ensures var n := ArchiveNames(version, collection).value;
      Split(n.archiveName, '.') == ["arcaverborum", n.letter, collection, n.date, "zip"]
  {
    var n := ArchiveNames(version, collection).value;
    var parts := ["arcaverborum", n.letter, collection, n.date, "zip"];
    assert Join(".", parts) == n.archiveName by {
      var p1, p2, p3 := parts[1..], parts[1..][1..], parts[1..][1..][1..];
      assert p3 == [n.date, "zip"] && p3[1..] == ["zip"];
      assert Join(".", p3) == n.date + "." + "zip";
      assert p2 == [collection] + p3;
      assert Join(".", p2) == collection + "." + Join(".", p3);
      assert p1 == [n.letter] + p2;
      assert Join(".", p1) == n.letter + "." + Join(".", p2);
    }
    SplitJoin(parts, '.');
  }

  /** An output file of a collection: its name and whether it exists. */
  datatype OutputFile = OutputFile(name: string, present: bool)

  /** One entry of the archive: a copied output file or a generated
      document with its text. */
  datatype Entry = Copied(arcname: string) | Generated(arcname: string, content: string)

  /** The entries for the output files: the present ones, in order. */
  function OutputEntries(baseDir: string, outputs: seq<OutputFile>): (r: seq<Entry>)
    ensures |r| <= |outputs|
    decreases |outputs|
  {
    if outputs == [] then []
    else
      var f := outputs[|outputs| - 1];
      OutputEntries(baseDir, outputs[..|outputs| - 1]) + if f.present then [Copied(baseDir + "/" + f.name)] else []
  }

  /** The entries for the generated documents: all of them, in order. */
  function DocEntries(baseDir: string, docs: seq<(string, string)>): (r: seq<Entry>)
    ensures |r| == |docs|
    decreases |docs|
  {
    if docs == [] then []
    else
      var d := docs[|docs| - 1];
      DocEntries(baseDir, docs[..|docs| - 1]) + [Generated(baseDir + "/" + d.0, d.1)]
  }

  datatype Archive = Archive(name: string, entries: seq<Entry>)

  /** `create_archive` (prepare_release.py:250-294): an invalid version is
      refused; a missing output file is skipped; every document is
      added. */
  method CreateArchive(version: string, outputs: seq<OutputFile>, docs: seq<(string, string)>, collection: string)
    returns (r: Result<Archive>)
    ensures r.Ok? <==> ArchiveNames(version, collection).Ok?
    ensures r.Ok? ==> var n := ArchiveNames(version, collection).value;
      && r.value.name == n.archiveName
      && r.value.entries == OutputEntries(n.baseDir, outputs) + DocEntries(n.baseDir, docs)
  {
    var names := ArchiveNames(version, collection);
    if names.Err? {
      return Err(names.error);
    }
    var baseDir := names.value.baseDir;
    var entries: seq<Entry> := [];
    for i := 0 to |outputs|
      invariant entries == OutputEntries(baseDir, outputs[..i])
    {
      assert outputs[..i + 1][..i] == outputs[..i];
      if outputs[i].present {
        entries := entries + [Copied(baseDir + "/" + outputs[i].name)];
      }
    }
    assert outputs[..|outputs|] == outputs;
    ghost var copied := entries;
    for i := 0 to |docs|
      invariant entries == copied + DocEntries(baseDir, docs[..i])
    {
      assert docs[..i + 1][..i] == docs[..i];
      entries := entries + [Generated(baseDir + "/" + docs[i].0, docs[i].1)];
    }
    assert docs[..|docs|] == docs;
    r := Ok(Archive(names.value.archiveName, entries));
  }

  predicate StartsWith(s: string, prefix: string) {
    |prefix| <= |s| && s[..|prefix|] == prefix
  }

  /** Every entry lies under the archive's directory. */
  lemma {:induction false} OutputEntriesUnder(baseDir: string, outputs: seq<OutputFile>)
    ensures forall e :: e in OutputEntries(baseDir, outputs) ==> StartsWith(e.arcname, baseDir + "/")
    decreases |outputs|
  {
    if outputs != [] {
      OutputEntriesUnder(baseDir, outputs[..|outputs| - 1]);
      var f := outputs[|outputs| - 1];
      assert (baseDir + "/" + f.name)[..|baseDir + "/"|] == baseDir + "/";
    }
  }

  lemma {:induction false} DocEntriesUnder(baseDir: string, docs: seq<(string, string)>)
    ensures forall e :: e in DocEntries(baseDir, docs) ==> StartsWith(e.arcname, baseDir + "/")
    decreases |docs|
  {
    if docs != [] {
      DocEntriesUnder(baseDir, docs[..|docs| - 1]);
      var d := docs[|docs| - 1];
      assert (baseDir + "/" + d.0)[..|baseDir + "/"|] == baseDir + "/";
    }
  }

  /** The copied entries are exactly the present output files: a missing
      file has no entry unless a present file shares its name. */
  lemma {:induction false} OutputEntriesExact(baseDir: string, outputs: seq<OutputFile>, name: string)
    ensures Copied(baseDir + "/" + name) in OutputEntries(baseDir, outputs)
        <==> exists i :: 0 <= i < |outputs| && outputs[i].present && outputs[i].name == name
    decreases |outputs|
  {
    if outputs != [] {
      var prefix, f := outputs[..|outputs| - 1], outputs[|outputs| - 1];
      OutputEntriesExact(baseDir, prefix, name);
      if f.present && Copied(baseDir + "/" + name) == Copied(baseDir + "/" + f.name) {
        assert |baseDir + "/" + name| == |baseDir + "/" + f.name|;
        assert name == (baseDir + "/" + name)[|baseDir + "/"|..];
        assert f.name == (baseDir + "/" + f.name)[|baseDir + "/"|..];
      }
      if exists i :: 0 <= i < |outputs| && outputs[i].present && outputs[i].name == name {
        var i :| 0 <= i < |outputs| && outputs[i].present && outputs[i].name == name;
        if i < |prefix| {
          assert prefix[i] == outputs[i];
        }
      }
      if exists i :: 0 <= i < |prefix| && prefix[i].present && prefix[i].name == name {
        var i :| 0 <= i < |prefix| && prefix[i].present && prefix[i].name == name;
        assert outputs[i] == prefix[i];
      }
    }
  }

  // ---------------------------------------------------------------------
  // compute_checksums (prepare_release.py:191-207)
  // ---------------------------------------------------------------------

  /** A file to checksum: its name and, when it exists, its SHA-256
      digest. */
  datatype FileDigest = FileDigest(name: string, digest: Option<string>)

  /** `path.name.replace(".", "_")`. */
  function ChecksumKey(name: string): (k: string)
    ensures '.' !in k && |k| == |name|
    ensures forall i :: 0 <= i < |name| && name[i] != '.' ==> k[i] == name[i]
  {
    ReplaceChar(name, '.', '_')
  }

  /** The dictionary after the files, in order; a later file with the same
      key overwrites an earlier one. */
  function Checksums(files: seq<FileDigest>): map<string, string>
    decreases |files|
  {
    if files == [] then map[]
    else
      var f := files[|files| - 1];
      var m := Checksums(files[..|files| - 1]);
      if f.digest.Some? then m[ChecksumKey(f.name) := f.digest.value] else m
  }

  /** `compute_checksums`: each existing file keyed by its name with `.`
      replaced by `_`; a missing one is left out with a warning. */
  method ComputeChecksums(files: seq<FileDigest>) returns (checksums: map<string, string>)
    ensures checksums == Checksums(files)
  {
    checksums := map[];
    for i := 0 to |files|
      invariant checksums == Checksums(files[..i])
    {
      assert files[..i + 1][..i] == files[..i];
      var f := files[i];
      if f.digest.Some? {
        checksums := checksums[ChecksumKey(f.name) := f.digest.value];
      }
    }
    assert files[..|files|] == files;
  }

  /** The keys are exactly those of the existing files. */
  lemma {:induction false} ChecksumsKeys(files: seq<FileDigest>, k: string)
    ensures k in Checksums(files) <==>
      exists i :: 0 <= i < |files| && files[i].digest.Some? && ChecksumKey(files[i].name) == k
    decreases |files|
  {
    if files != [] {
      var prefix := files[..|files| - 1];
      ChecksumsKeys(prefix, k);
      if exists i :: 0 <= i < |files| && files[i].digest.Some? && ChecksumKey(files[i].name) == k {
        var i :| 0 <= i < |files| && files[i].digest.Some? && ChecksumKey(files[i].name) == k;
        if i < |prefix| {
          assert prefix[i] == files[i];
        }
      }
      if exists i :: 0 <= i < |prefix| && prefix[i].digest.Some? && ChecksumKey(prefix[i].name) == k {
        var i :| 0 <= i < |prefix| && prefix[i].digest.Some? && ChecksumKey(prefix[i].name) == k;
        assert files[i] == prefix[i];
      }
    }
  }

  /** A file whose key no later file shares keeps its own digest. */
  lemma {:induction false} ChecksumsValue(files: seq<FileDigest>, i: nat)
    requires i < |files| && files[i].digest.Some?
    requires forall j :: i < j < |files| ==> files[j].digest.None? || ChecksumKey(files[j].name) != ChecksumKey(files[i].name)
    ensures ChecksumKey(files[i].name) in Checksums(files)
    ensures Checksums(files)[ChecksumKey(files[i].name)] == files[i].digest.value
    decreases |files|
  {
    if i < |files| - 1 {
      var prefix := files[..|files| - 1];
      assert prefix[i] == files[i];
      forall j | i < j < |prefix| ensures prefix[j].digest.None? || ChecksumKey(prefix[j].name) != ChecksumKey(prefix[i].name) {
        assert prefix[j] == files[j];
      }
      ChecksumsValue(prefix, i);
    }
  }

  // ---------------------------------------------------------------------
  // The release state (prepare_release.py:105-113, 541-551, 764-768)
  // ---------------------------------------------------------------------

  datatype ArchiveRecord = ArchiveRecord(path: string, sha256: string, size: nat)

  /** One entry of `state["releases"]`. */
  datatype ReleaseRecord = ReleaseRecord(date: string, full: ArchiveRecord, core: ArchiveRecord, corecog: ArchiveRecord)

  /** `.zenodo_state.json` as `load_state` reads it. */
  datatype SavedState = SavedState(lastVersion: Option<string>, releases: Option<map<string, ReleaseRecord>>)

  /** The state dictionary of `main`. An absent `releases` key reads as an
      empty one everywhere the script looks, so it is kept as the empty
      map. */
  class ReleaseState {
    var lastVersion: Option<string>
    var releases: map<string, ReleaseRecord>

    /** `load_state`: a missing state file is `{"releases": {}}`. */
    constructor Load(saved: Option<SavedState>)
      ensures saved.None? ==> lastVersion.None? && releases == map[]
      ensures saved.Some? ==> lastVersion == saved.value.lastVersion
                              && releases == saved.value.releases.GetOr(map[])
    {
      if saved.None? {
        lastVersion := None;
        releases := map[];
      } else {
        lastVersion := saved.value.lastVersion;
        releases := saved.value.releases.GetOr(map[]);
      }
    }

    /** The check before any archive is built (prepare_release.py:541-551):
        a version already released is refused unless `--force` is given;
        otherwise the answer is whether this is the first release. */
    method Check(version: string, force: bool) returns (r: Result<bool>)
      ensures r.Err? <==> version in releases && !force
      ensures r.Ok? ==> (r.value <==> releases == map[])
    {
      if version in releases && !force {
        return Err("Version " + version + " already released. Use --force to override.");
      }
      r := Ok(|releases| == 0);
      assert |releases| == 0 <==> releases == map[] by {
        if |releases| == 0 {
          assert releases.Keys == {};
        }
      }
    }

    /** The update after the archives are built (prepare_release.py:764-768):
        the version becomes the last one and its record is stored; every
        other release is kept as it was. */
    method Record(version: string, rec: ReleaseRecord)
      modifies this
      ensures lastVersion == Some(version)
      ensures releases == old(releases)[version := rec]
      ensures forall v :: v in old(releases) && v != version ==> v in releases && releases[v] == old(releases)[v]
    {
      lastVersion := Some(version);
      releases := releases[version := rec];
    }

    /** The state part of `main`: check, and when allowed record. */
    method Publish(version: string, force: bool, rec: ReleaseRecord) returns (r: Result<bool>)
      modifies this
      ensures r.Err? <==> version in old(releases) && !force
      ensures r.Err? ==> lastVersion == old(lastVersion) && releases == old(releases)
      ensures r.Ok? ==> (r.value <==> old(releases) == map[])
      ensures r.Ok? ==> lastVersion == Some(version) && releases == old(releases)[version := rec]
    {
      r := Check(version, force);
      if r.Ok? {
        Record(version, rec);
      }
    }
  }

  /** After a release, releasing the same version again without `--force`
      is refused, and no later release is a first one. */
  method PublishTwice(state: ReleaseState, version: string, rec: ReleaseRecord, other: string, rec': ReleaseRecord)
    returns (first: Result<bool>, second: Result<bool>, third: Result<bool>)
    modifies state
    ensures first.Ok? ==> second.Err?
    ensures first.Ok? ==> third.Ok? ==> !third.value
  {
    first := state.Publish(version, false, rec);
    second := state.Publish(version, false, rec);
    third := state.Publish(other, true, rec');
  }
}
