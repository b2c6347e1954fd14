/** The streaming merge (merge_cldf_datasets.py:156-191, 947-956,
    1020-1104): datasets are processed one at a time in sorted order and
    appended to `forms.csv`, `languages.csv` and `parameters.csv`; a dataset
    that raises is skipped. Whether an append writes the header depends on
    the dataset's position in the sorted list, not on whether an earlier
    dataset was written, so when the first dataset fails no file ever
    receives a header. */
module Corpus {
  import opened Wrappers
  import opened Text
  import opened Tables
  import opened Metadata
  import opened Accumulator
  import opened Pipeline

  /** One line of a CSV file the merge writes. */
  datatype Line = Header(columns: seq<string>) | Record(cells: seq<Cell>)

  /** The three corpus files. */
  datatype CorpusFile = FormsCsv | LanguagesCsv | ParametersCsv

  function Path(f: CorpusFile): string {
    match f
    case FormsCsv => "forms.csv"
    case LanguagesCsv => "languages.csv"
    case ParametersCsv => "parameters.csv"
  }

  const CorpusPaths: set<string> := {"forms.csv", "languages.csv", "parameters.csv"}

  /** The table of a processed dataset that goes to file `f`. */
  function Pick(tables: (Table, Table, Table), f: CorpusFile): Table {
    match f
    case FormsCsv => tables.0
    case LanguagesCsv => tables.1
    case ParametersCsv => tables.2
  }

  /** The data lines `to_csv(index=False)` writes for a frame: one record
      per row, its cells in column order. */
  function Records(df: Table): (lines: seq<Line>)
    ensures |lines| == |df.rows|
    ensures forall k :: 0 <= k < |lines| ==> lines[k].Record? && |lines[k].cells| == |df.columns|
  {
    seq(|df.rows|, k requires 0 <= k < |df.rows| =>
      Record(seq(|df.columns|, j requires 0 <= j < |df.columns| => Get(df.rows[k], df.columns[j]))))
  }

  /** Some line of the file is a header. */
  predicate HasHeader(lines: seq<Line>) {
    exists k :: 0 <= k < |lines| && lines[k].Header?
  }

  /** `append_to_csv` (merge_cldf_datasets.py:156-166) on the file's lines:
      a first write opens with mode `'w'`, discarding what the file held,
      and writes the header; any other write appends records only. */
  function AppendCsv(lines: seq<Line>, df: Table, isFirstWrite: bool): (r: seq<Line>)
    ensures isFirstWrite ==> |r| == 1 + |df.rows| && r[0] == Header(df.columns) && r[1..] == Records(df)
    ensures !isFirstWrite ==> |r| == |lines| + |df.rows| && r[..|lines|] == lines && r[|lines|..] == Records(df)
    ensures HasHeader(r) <==> isFirstWrite || HasHeader(lines)
  {
    var r := if isFirstWrite then [Header(df.columns)] + Records(df) else lines + Records(df);
    assert isFirstWrite ==> r[0].Header?;
    assert !isFirstWrite ==> forall k :: |lines| <= k < |r| ==> r[k] == Records(df)[k - |lines|];
    r
  }

  /** The output directory: each file's lines, by file name. */
  class OutputDirectory {
    var files: map<string, seq<Line>>

    constructor (existing: map<string, seq<Line>>)
      ensures files == existing
    {
      files := existing;
    }

    /** `initialize_output_files` (merge_cldf_datasets.py:169-191): the
        three corpus files of an earlier run are removed. */
    method InitializeOutputFiles()
      modifies this
      ensures files == old(files) - CorpusPaths
      ensures forall p :: p in CorpusPaths ==> LinesOf(files, p) == []
    {
      files := files - CorpusPaths;
    }

    /** `append_to_csv`: only the named file changes. */
    method AppendToCsv(path: string, df: Table, isFirstWrite: bool)
      modifies this
      ensures files == old(files)[path := AppendCsv(LinesOf(old(files), path), df, isFirstWrite)]
    {
      files := files[path := AppendCsv(LinesOf(files, path), df, isFirstWrite)];
    }
  }

  // ---------------------------------------------------------------------
  // What the sorted loop does, dataset by dataset
  // ---------------------------------------------------------------------

  /** `process_dataset` returns instead of raising. */
  predicate Succeeds(dataset: string, files: DatasetFiles) {
    files.metadata.Some? && ProcessTables(dataset, files).Ok?
  }

  /** What the loop makes of one dataset: it is skipped, or everything
      `process_dataset` returned for it is kept (the dataset name is the
      first argument `update` receives). */
  datatype Outcome =
    | Skipped
    | Kept(dataset: string, tables: (Table, Table, Table), metadata: DatasetMetadata,
           references: References, bibtex: string, tracking: ColumnTracking)

  function OutcomeOf(dataset: string, files: DatasetFiles): (o: Outcome)
    ensures o.Kept? <==> Succeeds(dataset, files)
    ensures o.Kept? ==> && o.dataset == dataset && o.bibtex == files.bibtex
                        && (o.metadata.hasCognates <==> files.cognates.Some?)
  {
    if Succeeds(dataset, files) then
      Kept(dataset, ProcessTables(dataset, files).value, ProcessedMetadata(dataset, files),
        ProcessedReferences(dataset, files), files.bibtex, ProcessedTracking(dataset, files))
    else Skipped
  }

  predicate Known(names: seq<string>, lexibank: map<string, DatasetFiles>) {
    forall n :: n in names ==> n in lexibank
  }

  /** `os` are the outcomes of the first `|os|` datasets of `names`. The
      trigger keeps the pipeline's definition out of every proof that does
      not name a dataset's outcome itself. */
  ghost predicate OutcomesOf(names: seq<string>, lexibank: map<string, DatasetFiles>, os: seq<Outcome>) {
    && Known(names, lexibank)
    && |os| <= |names|
    && forall k {:trigger OutcomeOf(names[k], lexibank[names[k]])} :: 0 <= k < |os| ==>
         os[k] == OutcomeOf(names[k], lexibank[names[k]])
  }

  /** The next dataset's outcome extends the outcomes. */
  lemma OutcomesSnoc(names: seq<string>, lexibank: map<string, DatasetFiles>, os: seq<Outcome>, o: Outcome)
    requires OutcomesOf(names, lexibank, os) && |os| < |names|
    requires forall k {:trigger OutcomeOf(names[k], lexibank[names[k]])} :: k == |os| ==>
      o == OutcomeOf(names[k], lexibank[names[k]])
    ensures OutcomesOf(names, lexibank, os + [o])
  {
    forall k | 0 <= k < |os| + 1
      ensures (os + [o])[k] == OutcomeOf(names[k], lexibank[names[k]])
    {
      if k < |os| {
        assert os[k] == OutcomeOf(names[k], lexibank[names[k]]);
      }
    }
  }

  /** The datasets the loop skips, in order. */
  function Failed(names: seq<string>, os: seq<Outcome>): (r: seq<string>)
    requires |names| == |os|
    ensures |r| <= |names|
    ensures forall n :: n in r ==> n in names
    decreases |names|
  {
    if names == [] then []
    else Failed(names[..|names| - 1], os[..|os| - 1]) + if os[|os| - 1].Skipped? then [names[|names| - 1]] else []
  }

  /** The bibliographies of the datasets the loop keeps, in order. */
  function Bibliographies(os: seq<Outcome>): (r: seq<string>)
    ensures |r| <= |os|
    decreases |os|
  {
    if os == [] then []
    else Bibliographies(os[..|os| - 1]) + if os[|os| - 1].Kept? then [os[|os| - 1].bibtex] else []
  }

  /** How many datasets the loop keeps. */
  function KeptCount(os: seq<Outcome>): (n: nat)
    ensures n <= |os|
    decreases |os|
  {
    if os == [] then 0 else KeptCount(os[..|os| - 1]) + if os[|os| - 1].Kept? then 1 else 0
  }

  // ---------------------------------------------------------------------
  // What the kept datasets add up to
  // ---------------------------------------------------------------------

  /** The rows the kept datasets contribute to file `f`. */
  function KeptRows(os: seq<Outcome>, f: CorpusFile): nat
    decreases |os|
  {
    if os == [] then 0
    else
      var o := os[|os| - 1];
      KeptRows(os[..|os| - 1], f) + if o.Kept? then |Pick(o.tables, f).rows| else 0
  }

  /** How many kept datasets have a cognate table. */
  function KeptCognates(os: seq<Outcome>): (n: nat)
    ensures n <= KeptCount(os)
    decreases |os|
  {
    if os == [] then 0
    else
      var o := os[|os| - 1];
      KeptCognates(os[..|os| - 1]) + if o.Kept? && o.metadata.hasCognates then 1 else 0
  }

  /** How many kept forms have a value in `column`. */
  function KeptNonNull(os: seq<Outcome>, column: string): (n: nat)
    ensures n <= KeptRows(os, FormsCsv)
    decreases |os|
  {
    if os == [] then 0
    else
      var o := os[|os| - 1];
      KeptNonNull(os[..|os| - 1], column) + if o.Kept? then NonNullCount(o.tables.0, column) else 0
  }

  /** The metadata rows of the kept datasets, in order. */
  function KeptMetadata(os: seq<Outcome>): (r: seq<DatasetMetadata>)
    ensures |r| == KeptCount(os)
    decreases |os|
  {
    if os == [] then []
    else
      var o := os[|os| - 1];
      KeptMetadata(os[..|os| - 1]) + if o.Kept? then [o.metadata] else []
  }

  /** The references rows of the kept datasets, in order. */
  function KeptReferences(os: seq<Outcome>): (r: seq<References>)
    ensures |r| == KeptCount(os)
    decreases |os|
  {
    if os == [] then []
    else
      var o := os[|os| - 1];
      KeptReferences(os[..|os| - 1]) + if o.Kept? then [o.references] else []
  }

  /** The column-tracking records of the kept datasets, in order. */
  function KeptTracking(os: seq<Outcome>): (r: seq<ColumnTracking>)
    ensures |r| == KeptCount(os)
    decreases |os|
  {
    if os == [] then []
    else
      var o := os[|os| - 1];
      KeptTracking(os[..|os| - 1]) + if o.Kept? then [o.tracking] else []
  }

  /** The kept datasets some of whose forms have a value in `column`, in
      order. */
  function KeptFlagged(os: seq<Outcome>, column: string): (r: seq<string>)
    ensures |r| <= KeptCount(os)
    ensures forall k :: 0 <= k < |r| ==> exists j :: 0 <= j < |os| && os[j].Kept? && os[j].dataset == r[k]
    decreases |os|
  {
    if os == [] then []
    else
      var o := os[|os| - 1];
      var prefix := os[..|os| - 1];
      var r := KeptFlagged(prefix, column) + if o.Kept? && AnyValue(o.tables.0, column) then [o.dataset] else [];
      assert forall j :: 0 <= j < |prefix| ==> prefix[j] == os[j];
      r
  }

  /** `completeness` after the kept datasets, starting from `m`: each one
      sets its own entry, a later dataset of the same name overwriting. */
  function KeptCompleteness(m: map<string, Completeness>, os: seq<Outcome>): (r: map<string, Completeness>)
    ensures forall d :: d in r <==> d in m || exists j :: 0 <= j < |os| && os[j].Kept? && os[j].dataset == d
    decreases |os|
  {
    if os == [] then m
    else
      var o := os[|os| - 1];
      var prefix := os[..|os| - 1];
      var r := KeptCompleteness(m, prefix);
      assert forall j :: 0 <= j < |prefix| ==> prefix[j] == os[j];
      if o.Kept? then
        r[o.dataset := CompletenessEntry(o.tables.0, o.tables.1, o.tables.2, o.metadata, o.tracking)]
      else r
  }

  /** The accumulator's contents after recording one outcome: `update`
      for a kept dataset, nothing for a skipped one. */
  function Recorded(s: Tally, o: Outcome): Tally {
    if o.Skipped? then s
    else Updated(s, o.dataset, o.tables.0, o.tables.1, o.tables.2, o.metadata, o.references, o.bibtex, o.tracking)
  }

  /** The accumulator's contents after the loop has seen `os`. */
  function Accumulated(s: Tally, os: seq<Outcome>): Tally
    decreases |os|
  {
    if os == [] then s else Recorded(Accumulated(s, os[..|os| - 1]), os[|os| - 1])
  }

  /** The contents `s` plus what the kept datasets of `os` add: every
      counter grows by the kept datasets' figures, every list by their
      rows in order, and completeness by their entries. */
  function Summed(s: Tally, os: seq<Outcome>): Tally {
    Tally(
      Totals(s.totals.forms + KeptRows(os, FormsCsv), s.totals.languages + KeptRows(os, LanguagesCsv),
        s.totals.parameters + KeptRows(os, ParametersCsv), s.totals.datasets + KeptCount(os),
        s.totals.datasetsWithCognates + KeptCognates(os)),
      Coverage(
        s.coverage.glottocode + KeptNonNull(os, "Glottocode"),
        s.coverage.concepticon + KeptNonNull(os, "Concepticon_ID"),
        s.coverage.cognacy + KeptNonNull(os, "Cognacy"),
        s.coverage.segments + KeptNonNull(os, "Segments"),
        s.coverage.alignment + KeptNonNull(os, "Alignment"),
        s.coverage.morphemeIndex + KeptNonNull(os, "Morpheme_Index"),
        s.coverage.segmentSlice + KeptNonNull(os, "Segment_Slice")),
      s.allMetadata + KeptMetadata(os),
      s.allReferences + KeptReferences(os),
      s.allBibtex + Bibliographies(os),
      s.allColumnTracking + KeptTracking(os),
      s.datasetsWithMorphemeIndex + KeptFlagged(os, "Morpheme_Index"),
      s.datasetsWithSegmentSlice + KeptFlagged(os, "Segment_Slice"),
      KeptCompleteness(s.completeness, os))
  }

  /** The fold of `update` over the loop is the sum over the kept
      datasets: the totals are the kept datasets' table lengths, the
      coverage their non-null counts, and the lists their rows in order;
      a skipped dataset contributes nothing. */
  lemma AccumulatedKept(s: Tally, os: seq<Outcome>)
    ensures Accumulated(s, os) == Summed(s, os)
  {
    AccumulatedCounters(s, os);
    AccumulatedLists(s, os);
    AccumulatedFlags(s, os);
    AccumulatedCompleteness(s, os);
  }

  /** `AccumulatedKept` for the counters. */
  lemma {:induction false} AccumulatedCounters(s: Tally, os: seq<Outcome>)
    ensures Accumulated(s, os).totals == Summed(s, os).totals
    ensures Accumulated(s, os).coverage == Summed(s, os).coverage
    decreases |os|
  {
    if os != [] {
      AccumulatedCounters(s, os[..|os| - 1]);
    }
  }

  /** `AccumulatedKept` for the four lists of rows. */
  lemma {:induction false} AccumulatedLists(s: Tally, os: seq<Outcome>)
    ensures Accumulated(s, os).allMetadata == s.allMetadata + KeptMetadata(os)
    ensures Accumulated(s, os).allReferences == s.allReferences + KeptReferences(os)
    ensures Accumulated(s, os).allBibtex == s.allBibtex + Bibliographies(os)
    ensures Accumulated(s, os).allColumnTracking == s.allColumnTracking + KeptTracking(os)
    decreases |os|
  {
    if os != [] {
      var prefix, o := os[..|os| - 1], os[|os| - 1];
      AccumulatedLists(s, prefix);
      if o.Kept? {
        assert s.allMetadata + KeptMetadata(os) == (s.allMetadata + KeptMetadata(prefix)) + [o.metadata];
        assert s.allReferences + KeptReferences(os) == (s.allReferences + KeptReferences(prefix)) + [o.references];
        assert s.allBibtex + Bibliographies(os) == (s.allBibtex + Bibliographies(prefix)) + [o.bibtex];
        assert s.allColumnTracking + KeptTracking(os) == (s.allColumnTracking + KeptTracking(prefix)) + [o.tracking];
      }
    }
  }

  /** `AccumulatedKept` for the two partial-cognacy lists. */
  lemma {:induction false} AccumulatedFlags(s: Tally, os: seq<Outcome>)
    ensures Accumulated(s, os).datasetsWithMorphemeIndex == s.datasetsWithMorphemeIndex + KeptFlagged(os, "Morpheme_Index")
    ensures Accumulated(s, os).datasetsWithSegmentSlice == s.datasetsWithSegmentSlice + KeptFlagged(os, "Segment_Slice")
    decreases |os|
  {
    if os != [] {
      var prefix, o := os[..|os| - 1], os[|os| - 1];
      AccumulatedFlags(s, prefix);
      if o.Kept? {
        var m, l := "Morpheme_Index", "Segment_Slice";
        assert s.datasetsWithMorphemeIndex + KeptFlagged(os, m)
            == Flagged(s.datasetsWithMorphemeIndex + KeptFlagged(prefix, m), o.dataset, o.tables.0, m);
        assert s.datasetsWithSegmentSlice + KeptFlagged(os, l)
            == Flagged(s.datasetsWithSegmentSlice + KeptFlagged(prefix, l), o.dataset, o.tables.0, l);
      }
    }
  }

  /** `AccumulatedKept` for completeness. */
  lemma {:induction false} AccumulatedCompleteness(s: Tally, os: seq<Outcome>)
    ensures Accumulated(s, os).completeness == KeptCompleteness(s.completeness, os)
    decreases |os|
  {
    if os != [] {
      AccumulatedCompleteness(s, os[..|os| - 1]);
    }
  }

  /** The report of the contents the loop leaves in a fresh accumulator
      is the report of the kept outcomes. */
  lemma SummedReport(os: seq<Outcome>, run: MergeRun)
    requires ReportOf(run.report, Summed(EmptyTally, os))
    requires run.metadata == Summed(EmptyTally, os).allMetadata
    requires run.references == Summed(EmptyTally, os).allReferences
    ensures Reported(run, os)
  {
    var t := Summed(EmptyTally, os);
    assert t.allReferences == KeptReferences(os);
    assert t.allMetadata == KeptMetadata(os);
    assert t.datasetsWithMorphemeIndex == KeptFlagged(os, "Morpheme_Index");
    assert t.datasetsWithSegmentSlice == KeptFlagged(os, "Segment_Slice");
  }

  /** The report's row totals count exactly the record lines the kept
      datasets append to each file. */
  lemma {:induction false} AllRecordsCount(os: seq<Outcome>, f: CorpusFile)
    ensures |AllRecords(os, f)| == KeptRows(os, f)
    decreases |os|
  {
    if os != [] {
      AllRecordsCount(os[..|os| - 1], f);
    }
  }

  /** File `f` after the loop, starting from a removed file: each kept
      dataset is appended, as a first write exactly when it stands first in
      the sorted list. */
  function Streamed(os: seq<Outcome>, f: CorpusFile): seq<Line>
    decreases |os|
  {
    if os == [] then []
    else
      var prev := Streamed(os[..|os| - 1], f);
      var o := os[|os| - 1];
      if o.Kept? then AppendCsv(prev, Pick(o.tables, f), |os| == 1) else prev
  }

  /** The records of every kept dataset, in order, with no header: what
      the file should hold below its header. */
  function AllRecords(os: seq<Outcome>, f: CorpusFile): seq<Line>
    decreases |os|
  {
    if os == [] then []
    else
      var o := os[|os| - 1];
      AllRecords(os[..|os| - 1], f) + if o.Kept? then Records(Pick(o.tables, f)) else []
  }

  /** The lines of a file below its header, if it opens with one. */
  function Body(lines: seq<Line>): seq<Line> {
    if |lines| > 0 && lines[0].Header? then lines[1..] else lines
  }

  /** A file gets a header exactly when the first dataset in sorted order
      is kept, and then the header opens it and names the columns of that
      dataset's table: a failure of the first dataset leaves every file
      headerless, whatever the later datasets do. */
  lemma {:induction false} StreamedHeader(os: seq<Outcome>, f: CorpusFile)
    ensures var s := Streamed(os, f);
      && (HasHeader(s) <==> |os| > 0 && os[0].Kept?)
      && (HasHeader(s) ==> s[0] == Header(Pick(os[0].tables, f).columns))
    decreases |os|
  {
    if os != [] {
      var prefix := os[..|os| - 1];
      StreamedHeader(prefix, f);
      if |os| > 1 {
        assert prefix[0] == os[0];
      }
    }
  }

  /** A dataset is kept exactly when `process_dataset` returns for it. */
  lemma OutcomeKept(names: seq<string>, lexibank: map<string, DatasetFiles>, os: seq<Outcome>, k: nat)
    requires OutcomesOf(names, lexibank, os) && k < |os|
    ensures os[k].Kept? <==> Succeeds(names[k], lexibank[names[k]])
  {
    assert os[k] == OutcomeOf(names[k], lexibank[names[k]]);
  }

  /** The columns of each corpus file. */
  function Schema(f: CorpusFile): seq<string> {
    match f
    case FormsCsv => FormsColumns
    case LanguagesCsv => LanguagesColumns
    case ParametersCsv => ParametersColumns
  }

  /** Every kept dataset's tables are projected on the corpus schema. */
  lemma KeptSchema(names: seq<string>, lexibank: map<string, DatasetFiles>, os: seq<Outcome>, k: nat, f: CorpusFile)
    requires OutcomesOf(names, lexibank, os) && k < |os| && os[k].Kept?
    ensures Pick(os[k].tables, f).columns == Schema(f)
  {
    assert os[k] == OutcomeOf(names[k], lexibank[names[k]]);
  }

  /** The header, when there is one, is the file's schema. */
  lemma StreamedSchema(names: seq<string>, lexibank: map<string, DatasetFiles>, os: seq<Outcome>, f: CorpusFile)
    requires OutcomesOf(names, lexibank, os) && |os| > 0 && os[0].Kept?
    ensures HasHeader(Streamed(os, f)) && Streamed(os, f)[0] == Header(Schema(f))
  {
    KeptSchema(names, lexibank, os, 0, f);
    StreamedHeader(os, f);
  }

  lemma BodyAppend(prev: seq<Line>, records: seq<Line>)
    requires forall k :: 0 <= k < |records| ==> records[k].Record?
    ensures Body(prev + records) == Body(prev) + records
  {
    if |prev| > 0 && prev[0].Header? {
      assert (prev + records)[1..] == prev[1..] + records;
    }
  }

  /** Below its header (if any) each file holds the records of every
      kept dataset, in sorted order, each row once. */
  lemma {:induction false} StreamedBody(os: seq<Outcome>, f: CorpusFile)
    ensures Body(Streamed(os, f)) == AllRecords(os, f)
    decreases |os|
  {
    if os != [] {
      var prefix := os[..|os| - 1];
      var o := os[|os| - 1];
      StreamedBody(prefix, f);
      if o.Kept? {
        if |os| == 1 {
          assert prefix == [];
        } else {
          BodyAppend(Streamed(prefix, f), Records(Pick(o.tables, f)));
        }
      }
    }
  }

  /** Every dataset is either kept or skipped. */
  lemma {:induction false} KeptOrFailed(names: seq<string>, os: seq<Outcome>)
    requires |names| == |os|
    ensures KeptCount(os) + |Failed(names, os)| == |names|
    decreases |names|
  {
    if names != [] {
      KeptOrFailed(names[..|names| - 1], os[..|os| - 1]);
    }
  }

  /** The lines of a file of the directory; a missing file reads as
      empty, and `to_csv` with mode `'a'` creates it. */
  function LinesOf(files: map<string, seq<Line>>, path: string): seq<Line> {
    if path in files then files[path] else []
  }

  /** The directory after the three appends for one dataset (none when it
      was skipped). */
  function Written(files: map<string, seq<Line>>, o: Outcome, isFirst: bool): map<string, seq<Line>> {
    if o.Skipped? then files
    else
      files["forms.csv" := AppendCsv(LinesOf(files, "forms.csv"), o.tables.0, isFirst)]
           ["languages.csv" := AppendCsv(LinesOf(files, "languages.csv"), o.tables.1, isFirst)]
           ["parameters.csv" := AppendCsv(LinesOf(files, "parameters.csv"), o.tables.2, isFirst)]
  }

  /** The three corpus files after the loop has seen the outcomes `os`. */
  ghost predicate StreamedIn(files: map<string, seq<Line>>, os: seq<Outcome>) {
    && LinesOf(files, "forms.csv") == Streamed(os, FormsCsv)
    && LinesOf(files, "languages.csv") == Streamed(os, LanguagesCsv)
    && LinesOf(files, "parameters.csv") == Streamed(os, ParametersCsv)
  }

  /** Appending one dataset, as a first write exactly when nothing came
      before it in the list, extends the stream by its outcome and leaves
      every other file alone. */
  lemma WrittenStep(files: map<string, seq<Line>>, os: seq<Outcome>, o: Outcome)
    requires StreamedIn(files, os)
    ensures StreamedIn(Written(files, o, |os| == 0), os + [o])
    ensures Written(files, o, |os| == 0) - CorpusPaths == files - CorpusPaths
  {
    assert (os + [o])[..|os|] == os;
  }

  lemma Advance(names: seq<string>, i: nat, os: seq<Outcome>, o: Outcome)
    requires 1 <= i <= |names| && |os| == i - 1
    ensures Failed(names[..i], os + [o]) == Failed(names[..i - 1], os) + if o.Skipped? then [names[i - 1]] else []
    ensures KeptCount(os + [o]) == KeptCount(os) + if o.Kept? then 1 else 0
    ensures Bibliographies(os + [o]) == Bibliographies(os) + if o.Kept? then [o.bibtex] else []
  {
    assert (os + [o])[..|os|] == os;
    assert names[..i][..i - 1] == names[..i - 1];
  }

  /** What a call of `process_dataset` means for the loop. */
  function OutcomeOfResult(dataset: string, r: Result<Processed>): (o: Outcome)
    ensures o.Kept? <==> r.Ok?
  {
    if r.Ok? then
      var p := r.value;
      Kept(dataset, (p.forms, p.languages, p.parameters), p.metadata, p.references, p.bibtex, p.tracking)
    else Skipped
  }

  /** Recording a processed dataset (merge_cldf_datasets.py:1049-1060):
      its statistics, then unless this is a dry run its three tables,
      with the header when `i == 1`. A dataset that raised records
      nothing. */
  method Keep(i: nat, dataset: string, r: Result<Processed>, dryRun: bool,
                out: OutputDirectory, acc: ValidationAccumulator)
    requires acc.Valid()
    modifies out, acc
    ensures acc.Valid()
    ensures acc.Contents() == Recorded(old(acc.Contents()), OutcomeOfResult(dataset, r))
    ensures out.files == if dryRun then old(out.files) else Written(old(out.files), OutcomeOfResult(dataset, r), i == 1)
  {
    if r.Ok? {
      var p := r.value;
      acc.Update(dataset, p.forms, p.languages, p.parameters, p.metadata, p.references, p.bibtex, p.tracking);
      if !dryRun {
        var isFirst := i == 1;
        out.AppendToCsv("forms.csv", p.forms, isFirst);
        out.AppendToCsv("languages.csv", p.languages, isFirst);
        out.AppendToCsv("parameters.csv", p.parameters, isFirst);
      }
    }
  }

  /** One turn of the loop of `main` (merge_cldf_datasets.py:1041-1071):
      the `i`-th dataset of `names`, after the outcomes `os` of those before
      it. */
  method MergeOne(i: nat, names: seq<string>, lexibank: map<string, DatasetFiles>, ghost os: seq<Outcome>,
                  dryRun: bool, out: OutputDirectory, acc: ValidationAccumulator) returns (kept: bool, ghost o: Outcome)
    requires OutcomesOf(names, lexibank, os) && |os| == i - 1 && 1 <= i <= |names|
    requires acc.Valid()
    modifies out, acc
    ensures OutcomesOf(names, lexibank, os + [o]) && (kept <==> o.Kept?)
    ensures acc.Valid()
    ensures acc.Contents() == Recorded(old(acc.Contents()), o)
    ensures out.files == if dryRun then old(out.files) else Written(old(out.files), o, i == 1)
  {
    var dataset := names[i - 1];
    var r := ProcessDataset(dataset, lexibank[dataset]);
    o := OutcomeOfResult(dataset, r);
    OutcomesSnoc(names, lexibank, os, o);
    kept := r.Ok?;
    Keep(i, dataset, r, dryRun, out, acc);
  }

  /** The state of the loop after the first `|os|` datasets of `names`:
      `os` are their outcomes, `skipped` the ones that raised, the
      accumulator has recorded the kept ones on top of the contents `s0`,
      and the corpus files hold their stream (or, in a dry run,
      nothing was written). */
  ghost predicate Merged(names: seq<string>, lexibank: map<string, DatasetFiles>, os: seq<Outcome>,
                         skipped: seq<string>, s0: Tally, acc: ValidationAccumulator,
                         dryRun: bool, files0: map<string, seq<Line>>, out: OutputDirectory)
    reads acc, out
  {
    && OutcomesOf(names, lexibank, os)
    && acc.Valid()
    && skipped == Failed(names[..|os|], os)
    && acc.Contents() == Accumulated(s0, os)
    && (dryRun ==> out.files == files0)
    && (!dryRun ==> out.files - CorpusPaths == files0 - CorpusPaths && StreamedIn(out.files, os))
  }

  /** One turn of the loop with its bookkeeping. */
  method MergeNext(names: seq<string>, lexibank: map<string, DatasetFiles>, i: nat,
                   ghost os: seq<Outcome>, skipped: seq<string>, ghost s0: Tally,
                   dryRun: bool, ghost files0: map<string, seq<Line>>, out: OutputDirectory, acc: ValidationAccumulator)
    returns (skipped': seq<string>, ghost os': seq<Outcome>)
    requires 1 <= i <= |names| && |os| == i - 1
    requires Merged(names, lexibank, os, skipped, s0, acc, dryRun, files0, out)
    modifies out, acc
    ensures |os'| == i
    ensures Merged(names, lexibank, os', skipped', s0, acc, dryRun, files0, out)
  {
    ghost var before := out.files;
    var kept, o := MergeOne(i, names, lexibank, os, dryRun, out, acc);
    if !dryRun {
      WrittenStep(before, os, o);
    }
    Advance(names, i, os, o);
    assert (os + [o])[..|os|] == os;
    skipped' := if kept then skipped else skipped + [names[i - 1]];
    os' := os + [o];
  }

  /** The loop of `main` (merge_cldf_datasets.py:1040-1071): for each
      dataset in sorted order, process it, record its statistics, and
      unless this is a dry run append its three tables, with the header
      when it is the first in the list (`i == 1`); a dataset that raises is
      added to the skip list and nothing of it is recorded or written. */
  method MergeDatasets(names: seq<string>, lexibank: map<string, DatasetFiles>, dryRun: bool,
                       out: OutputDirectory, acc: ValidationAccumulator) returns (skipped: seq<string>, ghost os: seq<Outcome>)
    requires Known(names, lexibank)
    requires acc.Valid()
    requires !dryRun ==> forall p :: p in CorpusPaths ==> p !in out.files
    modifies out, acc
    ensures |os| == |names| && OutcomesOf(names, lexibank, os)
    ensures acc.Valid()
    ensures skipped == Failed(names, os)
    ensures acc.Contents() == Summed(old(acc.Contents()), os)
    ensures dryRun ==> out.files == old(out.files)
    ensures !dryRun ==> out.files - CorpusPaths == old(out.files) - CorpusPaths && StreamedIn(out.files, os)
  {
    skipped, os := [], [];
    ghost var s0, files0 := acc.Contents(), out.files;
    for i := 1 to |names| + 1
      invariant |os| == i - 1
      invariant Merged(names, lexibank, os, skipped, s0, acc, dryRun, files0, out)
    {
      skipped, os := MergeNext(names, lexibank, i, os, skipped, s0, dryRun, files0, out, acc);
    }
    assert names[..|names|] == names;
    AccumulatedKept(s0, os);
  }

  // ---------------------------------------------------------------------
  // The bibliography
  // ---------------------------------------------------------------------

  predicate Blank(s: string) {
    Strip(s) == []
  }

  /** The entries `write_bibtex_file` keeps: those that are not blank. */
  function NonBlank(all: seq<string>): (r: seq<string>)
    ensures |r| <= |all|
    ensures forall k :: 0 <= k < |r| ==> !Blank(r[k])
  {
    if all == [] then []
    else NonBlank(all[..|all| - 1]) + if Blank(all[|all| - 1]) then [] else [all[|all| - 1]]
  }

  lemma NonBlankAppend(all: seq<string>, b: string)
    ensures NonBlank(all + [b]) == NonBlank(all) + if Blank(b) then [] else [b]
  {
    assert (all + [b])[..|all|] == all;
  }

  /** `'\n\n'.join(bib for bib in all_bibtex if bib.strip())`
      (merge_cldf_datasets.py:953). */
  function MergedBibtex(all: seq<string>): string {
    Join("\n\n", NonBlank(all))
  }

  lemma {:induction false} JoinAppend(sep: string, parts: seq<string>, x: string)
    ensures Join(sep, parts + [x]) == if parts == [] then x else Join(sep, parts) + sep + x
    decreases |parts|
  {
    if |parts| > 1 {
      assert (parts + [x])[1..] == parts[1..] + [x];
      JoinAppend(sep, parts[1..], x);
    }
  }

  /** One more dataset's bibliography: a blank one changes nothing; any
      other is appended after a blank line, or stands alone when nothing
      was kept before. */
  lemma MergedBibtexAppend(all: seq<string>, b: string)
    ensures Blank(b) ==> MergedBibtex(all + [b]) == MergedBibtex(all)
    ensures !Blank(b) && NonBlank(all) == [] ==> MergedBibtex(all + [b]) == b
    ensures !Blank(b) && NonBlank(all) != [] ==> MergedBibtex(all + [b]) == MergedBibtex(all) + "\n\n" + b
  {
    NonBlankAppend(all, b);
    if Blank(b) {
      assert NonBlank(all + [b]) == NonBlank(all);
    } else {
      JoinAppend("\n\n", NonBlank(all), b);
    }
  }

  /** The merged bibliography is empty exactly when every dataset's
      bibliography is blank. */
  lemma {:induction false} MergedBibtexEmpty(all: seq<string>)
    ensures MergedBibtex(all) == "" <==> forall k :: 0 <= k < |all| ==> Blank(all[k])
    decreases |all|
  {
    if all != [] {
      var prefix, b := all[..|all| - 1], all[|all| - 1];
      assert all == prefix + [b];
      MergedBibtexEmpty(prefix);
      MergedBibtexAppend(prefix, b);
      if !Blank(b) {
        StripBlank(b);
      }
      if MergedBibtex(prefix) != "" && !Blank(b) {
        assert |MergedBibtex(all)| > 0;
      }
    }
  }

  // ---------------------------------------------------------------------
  // main
  // ---------------------------------------------------------------------

  /** The dataset names `main` discovers: the subdirectories holding a
      `cldf/cldf-metadata.json`. */
  function Discover(lexibank: map<string, DatasetFiles>): (r: set<string>)
    ensures forall n :: n in r <==> n in lexibank && lexibank[n].metadata.Some?
  {
    set n | n in lexibank && lexibank[n].metadata.Some?
  }

  /** What a run leaves besides the three corpus files. */
  datatype MergeRun = MergeRun(
    skipped: seq<string>,
    report: Report,
    metadata: seq<DatasetMetadata>,
    references: seq<References>,
    bibliography: Option<string>)

  /** What the run reports about the outcomes `os`
      (merge_cldf_datasets.py:1079-1097): the summary counts only the kept
      datasets (their number, their forms, languages and concepts, those
      with cognate tables, and the two partial-cognacy lists); the quality
      figures, present once a form was kept, are the kept forms' non-null
      counts; each version histogram tallies the kept datasets'
      references; completeness has the kept datasets' entries; and the
      metadata and references tables written out are the kept datasets'
      rows, in sorted order. */
  ghost predicate Reported(run: MergeRun, os: seq<Outcome>) {
    var report := run.report;
    && report.summary == Summary(KeptCount(os), KeptRows(os, FormsCsv), KeptRows(os, LanguagesCsv),
         KeptRows(os, ParametersCsv), KeptCognates(os),
         |KeptFlagged(os, "Morpheme_Index")| + |KeptFlagged(os, "Segment_Slice")|)
    && (report.quality.Some? <==> KeptRows(os, FormsCsv) > 0)
    && (report.quality.Some? ==> report.quality.value == Quality(KeptNonNull(os, "Glottocode"),
         KeptNonNull(os, "Concepticon_ID"), KeptNonNull(os, "Cognacy"), KeptNonNull(os, "Segments"),
         KeptNonNull(os, "Alignment")))
    && Tallies(report.glottologVersions, KeptReferences(os), Glottolog)
    && Tallies(report.concepticonVersions, KeptReferences(os), Concepticon)
    && Tallies(report.cltsVersions, KeptReferences(os), Clts)
    && report.completeness == KeptCompleteness(map[], os)
    && report.datasetsWithMorphemeIndex == KeptFlagged(os, "Morpheme_Index")
    && report.datasetsWithSegmentSlice == KeptFlagged(os, "Segment_Slice")
    && report.formsWithMorphemeIndex == KeptNonNull(os, "Morpheme_Index")
    && report.formsWithSegmentSlice == KeptNonNull(os, "Segment_Slice")
    && run.metadata == KeptMetadata(os)
    && run.references == KeptReferences(os)
  }

  /** The run over the discovered datasets (merge_cldf_datasets.py:1036-1104),
      once the corpus files are removed: the sorted loop, the report, and
      unless this is a dry run the merged bibliography. */
  method MergeNamed(names: seq<string>, lexibank: map<string, DatasetFiles>, dryRun: bool, out: OutputDirectory)
    returns (run: MergeRun, ghost os: seq<Outcome>)
    requires Known(names, lexibank)
    requires !dryRun ==> forall p :: p in CorpusPaths ==> p !in out.files
    modifies out
    ensures |os| == |names| && OutcomesOf(names, lexibank, os)
    ensures run.skipped == Failed(names, os)
    ensures run.report.summary.totalDatasets == KeptCount(os)
    ensures run.report.summary.totalDatasets + |run.skipped| == |names|
    ensures Reported(run, os)
    ensures dryRun ==> out.files == old(out.files) && run.bibliography.None?
    ensures !dryRun ==>
      && out.files - CorpusPaths == old(out.files) - CorpusPaths
      && StreamedIn(out.files, os)
      && run.bibliography == Some(MergedBibtex(Bibliographies(os)))
  {
    var acc := new ValidationAccumulator();
    var skipped;
    skipped, os := MergeDatasets(names, lexibank, dryRun, out, acc);
    KeptOrFailed(names, os);
    assert acc.allBibtex == Bibliographies(os);
    var report := acc.GenerateReport();
    var bibliography := if dryRun then None else Some(MergedBibtex(acc.allBibtex));
    run := MergeRun(skipped, report, acc.allMetadata, acc.allReferences, bibliography);
    SummedReport(os, run);
  }

  /** Removing the same files twice removes them once. */
  lemma RemovedTwice(files: map<string, seq<Line>>, paths: set<string>)
    ensures (files - paths) - paths == files - paths
  {
  }

  /** `main` (merge_cldf_datasets.py:1020-1104): a missing input directory
      or one without datasets exits with status 1; otherwise the discovered
      datasets are merged in sorted order, every one either counted in the
      report or skipped, and, unless this is a dry run, the corpus files
      are rewritten from scratch and the bibliography written. */
  method MergeCorpus(lexibank: Option<map<string, DatasetFiles>>, dryRun: bool, out: OutputDirectory)
    returns (r: Result<MergeRun>, ghost os: seq<Outcome>)
    modifies out
    ensures r.Err? <==> lexibank.None? || Discover(lexibank.value) == {}
    ensures r.Err? ==> out.files == old(out.files)
    ensures r.Ok? ==>
      var names := Ordered(Discover(lexibank.value));
      && |os| == |names| && OutcomesOf(names, lexibank.value, os)
      && r.value.skipped == Failed(names, os)
      && r.value.report.summary.totalDatasets == KeptCount(os)
      && r.value.report.summary.totalDatasets + |r.value.skipped| == |names|
      && Reported(r.value, os)
      && (dryRun ==> out.files == old(out.files) && r.value.bibliography.None?)
      && (!dryRun ==>
            && out.files - CorpusPaths == old(out.files) - CorpusPaths
            && StreamedIn(out.files, os)
            && r.value.bibliography == Some(MergedBibtex(Bibliographies(os))))
  {
    os := [];
    if lexibank.None? {
      return Err("input directory does not exist"), os;
    }
    var discovered := Discover(lexibank.value);
    if discovered == {} {
      return Err("no datasets found"), os;
    }
    if !dryRun {
      out.InitializeOutputFiles();
      RemovedTwice(old(out.files), CorpusPaths);
    }
    var run;
    run, os := MergeNamed(Ordered(discovered), lexibank.value, dryRun, out);
    r := Ok(run);
  }
}
