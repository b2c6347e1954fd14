/** The streaming statistics collector `ValidationAccumulator`
    (merge_cldf_datasets.py:195-345): running counters and small lists
    that `update` folds each processed dataset into, and the report
    `generate_report` builds from them at the end. Percentages are
    floating point in the original; the model keeps the counts they are
    computed from. */
module Accumulator {
  import opened Wrappers
  import opened Tables
  import opened Metadata

  /** The `column_tracking` record `process_dataset` hands to `update`. */
  datatype ColumnTracking = ColumnTracking(dataset: string, formsColumnsPresent: seq<string>, hasCognates: bool)

  /** One entry of `completeness`; `nullCounts` holds the null count
      behind each `null_percentage` entry. */
  datatype Completeness = Completeness(
    forms: nat,
    languages: nat,
    parameters: nat,
    hasCognates: bool,
    columnsPresent: seq<string>,
    nullCounts: map<string, nat>)

  datatype Summary = Summary(
    totalDatasets: nat,
    totalForms: nat,
    totalLanguages: nat,
    totalParameters: nat,
    datasetsWithCognates: nat,
    datasetsWithPartialCognacy: nat)

  /** The numerators of the five `data_quality` percentages, whose common
      denominator is the total number of forms. */
  datatype Quality = Quality(glottocode: nat, concepticon: nat, cognacy: nat, segments: nat, alignment: nat)

  datatype Report = Report(
    summary: Summary,
    completeness: map<string, Completeness>,
    quality: Option<Quality>,
    glottologVersions: map<string, nat>,
    concepticonVersions: map<string, nat>,
    cltsVersions: map<string, nat>,
    datasetsWithMorphemeIndex: seq<string>,
    datasetsWithSegmentSlice: seq<string>,
    formsWithMorphemeIndex: nat,
    formsWithSegmentSlice: nat)

  /** The dataset and row counters of the accumulator. */
  datatype Totals = Totals(forms: nat, languages: nat, parameters: nat, datasets: nat, datasetsWithCognates: nat)

  /** The coverage counters of the accumulator: how many forms have a
      value in each of the tracked columns. */
  datatype Coverage = Coverage(
    glottocode: nat,
    concepticon: nat,
    cognacy: nat,
    segments: nat,
    alignment: nat,
    morphemeIndex: nat,
    segmentSlice: nat)

  /** No coverage counter exceeds the number of forms. */
  predicate CoverageWithin(c: Coverage, forms: nat) {
    && c.glottocode <= forms && c.concepticon <= forms && c.cognacy <= forms
    && c.segments <= forms && c.alignment <= forms
    && c.morphemeIndex <= forms && c.segmentSlice <= forms
  }

  /** The reference catalogues whose versions are tallied. */
  datatype Catalogue = Glottolog | Concepticon | Clts

  /** `ref.get(key)` for the catalogue's `*_Version` key. */
  function VersionOf(r: References, cat: Catalogue): Option<string> {
    match cat
    case Glottolog => r.glottolog
    case Concepticon => r.concepticon
    case Clts => r.clts
  }

  /** How many of `refs` name version `v` of the catalogue. */
  function CountVersion(refs: seq<References>, cat: Catalogue, v: string): (n: nat)
    ensures n <= |refs|
    ensures n == 0 <==> forall k :: 0 <= k < |refs| ==> VersionOf(refs[k], cat) != Some(v)
  {
    if refs == [] then 0
    else
      var last := refs[|refs| - 1];
      CountVersion(refs[..|refs| - 1], cat, v) + (if VersionOf(last, cat) == Some(v) then 1 else 0)
  }

  /** A version histogram as `generate_report` means it: exactly the
      non-empty versions that occur, each with the number of datasets that
      name it. `None` and `""` are falsy and never counted. */
  ghost predicate Tallies(hist: map<string, nat>, refs: seq<References>, cat: Catalogue) {
    && (forall v :: v in hist <==> v != "" && CountVersion(refs, cat, v) > 0)
    && (forall v :: v in hist ==> hist[v] == CountVersion(refs, cat, v))
  }

  /** The columns whose null share is recorded per dataset. */
  const NullTracked: set<string> := {"Segments", "Comment", "Loan", "Cognacy", "Alignment"}

  /** The null count of each tracked column the forms have: the figures
      behind the per-dataset `null_percentage` entries. */
  function NullCounts(forms: Table): map<string, nat> {
    map c | c in NullTracked && c in forms.columns :: NullCount(forms, c)
  }

  /** `null_pct` (merge_cldf_datasets.py:270-275) has an entry for exactly
      the tracked columns the forms have, and each entry's count is the
      rows of that column that are not filled. */
  lemma NullCountsEntry(forms: Table, c: string)
    ensures c in NullCounts(forms) <==> c in NullTracked && c in forms.columns
    ensures c in NullCounts(forms) ==> NullCounts(forms)[c] + NonNullCount(forms, c) == |forms.rows|
  {
  }

  /** The number of datasets flagged as having cognate tables. */
  function CognateCount(ms: seq<DatasetMetadata>): (n: nat)
    ensures n <= |ms|
  {
    if ms == [] then 0
    else CognateCount(ms[..|ms| - 1]) + (if ms[|ms| - 1].hasCognates then 1 else 0)
  }

  /** Some form has a value in column `c` (`forms[c].notna().any()`). */
  predicate AnyValue(t: Table, c: string) {
    exists k :: 0 <= k < |t.rows| && Get(t.rows[k], c) != Null
  }

  /** A histogram after counting one version, if it is truthy. */
  function Bumped(hist: map<string, nat>, version: Option<string>): map<string, nat> {
    if version.Some? && version.value != "" then
      hist[version.value := (if version.value in hist then hist[version.value] else 0) + 1]
    else hist
  }

  /** Counting one more reference extends a histogram that was exact for
      the references before it. */
  lemma TalliesStep(hist: map<string, nat>, refs: seq<References>, cat: Catalogue, i: nat)
    requires i < |refs| && Tallies(hist, refs[..i], cat)
    ensures Tallies(Bumped(hist, VersionOf(refs[i], cat)), refs[..i + 1], cat)
  {
    assert refs[..i + 1][..i] == refs[..i];
  }

  /** The dataset and row counters after one more dataset
      (merge_cldf_datasets.py:244-251). */
  function CountDataset(t: Totals, forms: Table, languages: Table, parameters: Table, hasCognates: bool)
    : (r: Totals)
    ensures r.forms == t.forms + |forms.rows|
    ensures r.languages == t.languages + |languages.rows|
    ensures r.parameters == t.parameters + |parameters.rows|
    ensures r.datasets == t.datasets + 1
    ensures r.datasetsWithCognates == t.datasetsWithCognates + (if hasCognates then 1 else 0)
  {
    Totals(t.forms + |forms.rows|, t.languages + |languages.rows|, t.parameters + |parameters.rows|,
      t.datasets + 1, t.datasetsWithCognates + (if hasCognates then 1 else 0))
  }

  /** The coverage counters after one more dataset's forms
      (merge_cldf_datasets.py:253-267): each grows by its column's non-null
      count, so coverage stays within the forms seen. The two
      partial-cognacy counters are bumped only under `.any()`, which adds
      nothing a zero count would not. */
  function CountCoverage(c: Coverage, forms: Table): (r: Coverage)
    ensures r.glottocode == c.glottocode + NonNullCount(forms, "Glottocode")
    ensures r.concepticon == c.concepticon + NonNullCount(forms, "Concepticon_ID")
    ensures r.cognacy == c.cognacy + NonNullCount(forms, "Cognacy")
    ensures r.segments == c.segments + NonNullCount(forms, "Segments")
    ensures r.alignment == c.alignment + NonNullCount(forms, "Alignment")
    ensures r.morphemeIndex == c.morphemeIndex + NonNullCount(forms, "Morpheme_Index")
    ensures r.segmentSlice == c.segmentSlice + NonNullCount(forms, "Segment_Slice")
  {
    var morpheme := NonNullCount(forms, "Morpheme_Index");
    var slice := NonNullCount(forms, "Segment_Slice");
    Coverage(
      c.glottocode + NonNullCount(forms, "Glottocode"),
      c.concepticon + NonNullCount(forms, "Concepticon_ID"),
      c.cognacy + NonNullCount(forms, "Cognacy"),
      c.segments + NonNullCount(forms, "Segments"),
      c.alignment + NonNullCount(forms, "Alignment"),
      if morpheme > 0 then c.morphemeIndex + morpheme else c.morphemeIndex,
      if slice > 0 then c.segmentSlice + slice else c.segmentSlice)
  }

  /** Counting a dataset's forms keeps every coverage counter within the
      forms seen, since no column has more values than the forms have rows. */
  lemma CountCoverageWithin(c: Coverage, forms: Table, n: nat)
    requires CoverageWithin(c, n)
    ensures CoverageWithin(CountCoverage(c, forms), n + |forms.rows|)
  {
  }

  /** A dataset list after one more dataset: the dataset is appended iff
      some form has a value in `column` (merge_cldf_datasets.py:261-262,
      265-266). */
  function Flagged(list: seq<string>, dataset: string, forms: Table, column: string): seq<string> {
    if AnyValue(forms, column) then list + [dataset] else list
  }

  /** `generate_report`'s version distribution (merge_cldf_datasets.py:300-311):
      for every reference row and every catalogue key, a truthy version
      bumps that version's count in that catalogue's histogram. */
  method VersionDistribution(refs: seq<References>) returns (dist: map<Catalogue, map<string, nat>>)
    ensures Glottolog in dist && Tallies(dist[Glottolog], refs, Glottolog)
    ensures Concepticon in dist && Tallies(dist[Concepticon], refs, Concepticon)
    ensures Clts in dist && Tallies(dist[Clts], refs, Clts)
  {
    var keys := [Glottolog, Concepticon, Clts];
    dist := map[Glottolog := map[], Concepticon := map[], Clts := map[]];
    assert refs[..0] == [];
    for i := 0 to |refs|
      invariant Glottolog in dist && Tallies(dist[Glottolog], refs[..i], Glottolog)
      invariant Concepticon in dist && Tallies(dist[Concepticon], refs[..i], Concepticon)
      invariant Clts in dist && Tallies(dist[Clts], refs[..i], Clts)
    {
      for j := 0 to |keys|
        invariant Glottolog in dist && Tallies(dist[Glottolog], refs[..if 0 < j then i + 1 else i], Glottolog)
        invariant Concepticon in dist && Tallies(dist[Concepticon], refs[..if 1 < j then i + 1 else i], Concepticon)
        invariant Clts in dist && Tallies(dist[Clts], refs[..if 2 < j then i + 1 else i], Clts)
      {
        var key := keys[j];
        var version := VersionOf(refs[i], key);
        TalliesStep(dist[key], refs, key, i);
        if version.Some? && version.value != "" {
          dist := dist[key := Bumped(dist[key], version)];
        }
      }
    }
    assert refs[..|refs|] == refs;
  }

  /** What every sequence of `update` calls keeps true: one entry per
      processed dataset in each small table, the cognate counter in step
      with the metadata flags, neither partial-cognacy list longer than
      the datasets seen, and no coverage counter above the forms seen. */
  ghost predicate Consistent(totals: Totals, coverage: Coverage, allMetadata: seq<DatasetMetadata>,
                             allReferences: seq<References>, allBibtex: seq<string>,
                             allColumnTracking: seq<ColumnTracking>, morpheme: seq<string>, slice: seq<string>)
  {
    && totals.datasets == |allMetadata| == |allReferences| == |allBibtex| == |allColumnTracking|
    && totals.datasetsWithCognates == CognateCount(allMetadata)
    && |morpheme| <= totals.datasets
    && |slice| <= totals.datasets
    && CoverageWithin(coverage, totals.forms)
  }

  /** One `update` keeps the accumulator consistent. */
  lemma UpdateConsistent(totals: Totals, coverage: Coverage, allMetadata: seq<DatasetMetadata>,
                         allReferences: seq<References>, allBibtex: seq<string>,
                         allColumnTracking: seq<ColumnTracking>, morpheme: seq<string>, slice: seq<string>,
                         dataset: string, forms: Table, languages: Table, parameters: Table,
                         metadata: DatasetMetadata, references: References, bibtex: string, tracking: ColumnTracking)
    requires Consistent(totals, coverage, allMetadata, allReferences, allBibtex, allColumnTracking, morpheme, slice)
    ensures Consistent(
      CountDataset(totals, forms, languages, parameters, metadata.hasCognates),
      CountCoverage(coverage, forms),
      allMetadata + [metadata], allReferences + [references], allBibtex + [bibtex], allColumnTracking + [tracking],
      Flagged(morpheme, dataset, forms, "Morpheme_Index"), Flagged(slice, dataset, forms, "Segment_Slice"))
  {
    assert (allMetadata + [metadata])[..|allMetadata|] == allMetadata;
    CountCoverageWithin(coverage, forms, totals.forms);
  }

  /** Everything the accumulator holds, as one value. */
  datatype Tally = Tally(
    totals: Totals,
    coverage: Coverage,
    allMetadata: seq<DatasetMetadata>,
    allReferences: seq<References>,
    allBibtex: seq<string>,
    allColumnTracking: seq<ColumnTracking>,
    datasetsWithMorphemeIndex: seq<string>,
    datasetsWithSegmentSlice: seq<string>,
    completeness: map<string, Completeness>)

  /** What `__init__` sets up. */
  const EmptyTally: Tally := Tally(Totals(0, 0, 0, 0, 0), Coverage(0, 0, 0, 0, 0, 0, 0),
    [], [], [], [], [], [], map[])

  /** The completeness entry `update` records for a dataset
      (merge_cldf_datasets.py:277-284). */
  function CompletenessEntry(forms: Table, languages: Table, parameters: Table,
                             metadata: DatasetMetadata, tracking: ColumnTracking): Completeness {
    Completeness(|forms.rows|, |languages.rows|, |parameters.rows|,
      metadata.hasCognates, tracking.formsColumnsPresent, NullCounts(forms))
  }

  /** What one `update` (merge_cldf_datasets.py:229-291) makes of the
      accumulator's contents. */
  function Updated(s: Tally, dataset: string, forms: Table, languages: Table, parameters: Table,
                   metadata: DatasetMetadata, references: References, bibtex: string, tracking: ColumnTracking): Tally {
    Tally(
      CountDataset(s.totals, forms, languages, parameters, metadata.hasCognates),
      CountCoverage(s.coverage, forms),
      s.allMetadata + [metadata],
      s.allReferences + [references],
      s.allBibtex + [bibtex],
      s.allColumnTracking + [tracking],
      Flagged(s.datasetsWithMorphemeIndex, dataset, forms, "Morpheme_Index"),
      Flagged(s.datasetsWithSegmentSlice, dataset, forms, "Segment_Slice"),
      s.completeness[dataset := CompletenessEntry(forms, languages, parameters, metadata, tracking)])
  }

  /** The report `generate_report` builds from the contents `t`: the
      summary copies the counters, the partial-cognacy figure being the sum
      of the two dataset lists' lengths (a dataset in both counts twice);
      quality figures exist exactly when some form was seen; each version
      histogram tallies exactly the non-empty versions the references
      name; the rest is copied. */
  ghost predicate ReportOf(r: Report, t: Tally) {
    && r.summary == Summary(t.totals.datasets, t.totals.forms, t.totals.languages, t.totals.parameters,
         t.totals.datasetsWithCognates, |t.datasetsWithMorphemeIndex| + |t.datasetsWithSegmentSlice|)
    && (r.quality.Some? <==> t.totals.forms > 0)
    && (r.quality.Some? ==> r.quality.value == Quality(t.coverage.glottocode, t.coverage.concepticon,
         t.coverage.cognacy, t.coverage.segments, t.coverage.alignment))
    && Tallies(r.glottologVersions, t.allReferences, Glottolog)
    && Tallies(r.concepticonVersions, t.allReferences, Concepticon)
    && Tallies(r.cltsVersions, t.allReferences, Clts)
    && r.completeness == t.completeness
    && r.datasetsWithMorphemeIndex == t.datasetsWithMorphemeIndex
    && r.datasetsWithSegmentSlice == t.datasetsWithSegmentSlice
    && r.formsWithMorphemeIndex == t.coverage.morphemeIndex
    && r.formsWithSegmentSlice == t.coverage.segmentSlice
  }

  /** The accumulator; its counters are grouped into the two records
      above, the lists and the completeness dictionary are fields of their
      own. */
  class ValidationAccumulator {
    var totals: Totals
    var coverage: Coverage

    var allMetadata: seq<DatasetMetadata>
    var allReferences: seq<References>
    var allBibtex: seq<string>
    var allColumnTracking: seq<ColumnTracking>

    var datasetsWithMorphemeIndex: seq<string>
    var datasetsWithSegmentSlice: seq<string>

    var completeness: map<string, Completeness>

    /** The accumulator's fields, as one value. */
    function Contents(): Tally
      reads this
    {
      Tally(totals, coverage, allMetadata, allReferences, allBibtex, allColumnTracking,
        datasetsWithMorphemeIndex, datasetsWithSegmentSlice, completeness)
    }

    /** The accumulator's fields are consistent. */
    ghost predicate Valid()
      reads this
    {
      Consistent(totals, coverage, allMetadata, allReferences, allBibtex, allColumnTracking,
        datasetsWithMorphemeIndex, datasetsWithSegmentSlice)
    }

    /** `ValidationAccumulator.__init__` (merge_cldf_datasets.py:200-227). */
    constructor ()
      ensures Valid()
      ensures totals == Totals(0, 0, 0, 0, 0) && coverage == Coverage(0, 0, 0, 0, 0, 0, 0)
      ensures allMetadata == [] && allReferences == [] && allBibtex == [] && allColumnTracking == []
      ensures datasetsWithMorphemeIndex == [] && datasetsWithSegmentSlice == [] && completeness == map[]
      ensures Contents() == EmptyTally
    {
      totals := Totals(0, 0, 0, 0, 0);
      coverage := Coverage(0, 0, 0, 0, 0, 0, 0);
      allMetadata, allReferences, allBibtex, allColumnTracking := [], [], [], [];
      datasetsWithMorphemeIndex, datasetsWithSegmentSlice := [], [];
      completeness := map[];
    }

    /** `ValidationAccumulator.update` (merge_cldf_datasets.py:229-291).
        A counted column the forms lack reads as all-null here, where pandas
        would raise KeyError; the merge only ever passes forms projected on
        the full schema, which have them all. */
    method Update(dataset: string, forms: Table, languages: Table, parameters: Table,
                  metadata: DatasetMetadata, references: References, bibtex: string, tracking: ColumnTracking)
      requires Valid()
      modifies this
      ensures Valid()
      ensures totals == CountDataset(old(totals), forms, languages, parameters, metadata.hasCognates)
      ensures coverage == CountCoverage(old(coverage), forms)
      ensures datasetsWithMorphemeIndex == Flagged(old(datasetsWithMorphemeIndex), dataset, forms, "Morpheme_Index")
      ensures datasetsWithSegmentSlice == Flagged(old(datasetsWithSegmentSlice), dataset, forms, "Segment_Slice")
      ensures completeness == old(completeness)[dataset := CompletenessEntry(forms, languages, parameters, metadata, tracking)]
      ensures allMetadata == old(allMetadata) + [metadata]
      ensures allReferences == old(allReferences) + [references]
      ensures allBibtex == old(allBibtex) + [bibtex]
      ensures allColumnTracking == old(allColumnTracking) + [tracking]
      ensures Contents() == Updated(old(Contents()), dataset, forms, languages, parameters,
        metadata, references, bibtex, tracking)
    {
      var entry := CompletenessEntry(forms, languages, parameters, metadata, tracking);
      var totals' := CountDataset(totals, forms, languages, parameters, metadata.hasCognates);
      var coverage' := CountCoverage(coverage, forms);
      var morpheme' := Flagged(datasetsWithMorphemeIndex, dataset, forms, "Morpheme_Index");
      var slice' := Flagged(datasetsWithSegmentSlice, dataset, forms, "Segment_Slice");
      UpdateConsistent(totals, coverage, allMetadata, allReferences, allBibtex, allColumnTracking,
        datasetsWithMorphemeIndex, datasetsWithSegmentSlice,
        dataset, forms, languages, parameters, metadata, references, bibtex, tracking);
      totals, coverage, datasetsWithMorphemeIndex, datasetsWithSegmentSlice, completeness,
        allMetadata, allReferences, allBibtex, allColumnTracking :=
        totals', coverage', morpheme', slice', completeness[dataset := entry],
        allMetadata + [metadata], allReferences + [references], allBibtex + [bibtex], allColumnTracking + [tracking];
    }

    /** `generate_report` (merge_cldf_datasets.py:293-345): the report of
        the accumulator's contents; no figure exceeds what it counts
        against. */
    method GenerateReport() returns (r: Report)
      requires Valid()
      ensures ReportOf(r, Contents())
      ensures r.summary.datasetsWithCognates <= r.summary.totalDatasets
      ensures r.summary.datasetsWithPartialCognacy <= 2 * r.summary.totalDatasets
      ensures r.quality.Some? ==> r.quality.value.glottocode <= r.summary.totalForms
    {
      var dist := VersionDistribution(allReferences);

      var quality: Option<Quality> := None;
      if totals.forms > 0 {
        quality := Some(Quality(coverage.glottocode, coverage.concepticon, coverage.cognacy,
          coverage.segments, coverage.alignment));
      }

      var summary := Summary(totals.datasets, totals.forms, totals.languages, totals.parameters,
        totals.datasetsWithCognates, |datasetsWithMorphemeIndex| + |datasetsWithSegmentSlice|);
      r := Report(summary, completeness, quality, dist[Glottolog], dist[Concepticon], dist[Clts],
        datasetsWithMorphemeIndex, datasetsWithSegmentSlice, coverage.morphemeIndex, coverage.segmentSlice);
    }
  }
}
