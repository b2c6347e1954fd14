/** One dataset through the merge (`process_dataset`,
    merge_cldf_datasets.py:720-774): load its tables, fold in the cognate
    judgements, join language and concept metadata onto the forms, and
    project the three tables on the corpus schema. */
module Pipeline {
  import opened Wrappers
  import opened Text
  import opened Tables
  import opened Namespace
  import opened Loader
  import opened Cognates
  import opened Joins
  import opened Metadata
  import opened Accumulator

  /** The schema of `forms.csv` (merge_cldf_datasets.py:35-41). */
  const FormsColumns: seq<string> := [
    "ID", "Dataset", "Local_ID", "Language_ID", "Parameter_ID",
    "Value", "Form", "Segments", "Comment", "Source", "Loan",
    "Graphemes", "Profile", "Cognacy", "Doubt", "Cognate_Detection_Method",
    "Cognate_Source", "Alignment", "Glottocode", "Glottolog_Name",
    "Concepticon_ID", "Concepticon_Gloss", "Morpheme_Index", "Segment_Slice"]

  /** The schema of `languages.csv` (merge_cldf_datasets.py:43-47). */
  const LanguagesColumns: seq<string> := [
    "ID", "Dataset", "Name", "Glottocode", "Glottolog_Name",
    "ISO639P3code", "Macroarea", "Latitude", "Longitude",
    "Family", "Location", "Remark"]

  /** The schema of `parameters.csv` (merge_cldf_datasets.py:49-51). */
  const ParametersColumns: seq<string> := ["ID", "Dataset", "Name", "Concepticon_ID", "Concepticon_Gloss"]

  /** What one dataset's `cldf` directory holds; an absent file is `None`.
      The bibliography is the text `prefix_bibtex_file` makes of
      `sources.bib`, which the model takes as given. */
  datatype DatasetFiles = DatasetFiles(
    metadata: Option<MetadataJson>,
    forms: Option<Csv>,
    languages: Option<Csv>,
    parameters: Option<Csv>,
    cognates: Option<Csv>,
    bibtex: string)

  /** The tuple `process_dataset` returns. */
  datatype Processed = Processed(
    forms: Table,
    languages: Table,
    parameters: Table,
    metadata: DatasetMetadata,
    references: References,
    bibtex: string,
    tracking: ColumnTracking)

  /** The table part of `process_dataset` (merge_cldf_datasets.py:744-764):
      the first error raised, or the three projected tables. */
  function ProcessTables(dataset: string, files: DatasetFiles): (r: Result<(Table, Table, Table)>)
    ensures files.forms.None? || files.languages.None? || files.parameters.None? ==> r.Err?
    ensures r.Ok? ==> && r.value.0.columns == FormsColumns
                      && r.value.1.columns == LanguagesColumns
                      && r.value.2.columns == ParametersColumns
    ensures r.Ok? ==> && |r.value.1.rows| == |files.languages.value.records|
                      && |r.value.2.rows| == |files.parameters.value.records|
    ensures r.Ok? ==> |r.value.0.rows| >= |files.forms.value.records|
  {
    var loaded :- LoadForms(files.forms, dataset);
    var languages :- LoadLanguages(files.languages, dataset);
    var parameters :- LoadParameters(files.parameters, dataset);
    var cognates := LoadCognates(files.cognates, dataset);
    var forms :- MergeCognateData(loaded.0, cognates, dataset);
    var forms' :- JoinLanguageMetadata(forms, languages);
    var forms'' :- JoinParameterMetadata(forms', parameters);
    Ok((Reindex(forms'', FormsColumns), Reindex(languages, LanguagesColumns), Reindex(parameters, ParametersColumns)))
  }

  /** The metadata row of a dataset: every field as `extract_metadata`
      reads it from `cldf-metadata.json`, with `Has_Cognates` set by
      whether a cognate table exists. */
  function ProcessedMetadata(dataset: string, files: DatasetFiles): DatasetMetadata
    requires files.metadata.Some?
  {
    var m := files.metadata.value;
    DatasetMetadata(
      dataset, m.title.GetOr(""), m.citation.GetOr(""), m.accessUrl.GetOr(""), m.license.GetOr(""),
      CldfModule(m), CreatedOf(m.derivedFrom, "Repository"), DescriptionOf(m.generatedBy, "python"),
      ExtentOfKind(m.tables, FormKind), ExtentOfKind(m.tables, LanguageKind),
      ExtentOfKind(m.tables, ParameterKind), files.cognates.Some?)
  }

  /** The references row of a dataset, as `extract_references` reads it. */
  function ProcessedReferences(dataset: string, files: DatasetFiles): References
    requires files.metadata.Some?
  {
    var m := files.metadata.value;
    References(dataset, CreatedOf(m.derivedFrom, "Glottolog"), CreatedOf(m.derivedFrom, "Concepticon"),
      CreatedOf(m.derivedFrom, "CLTS"))
  }

  /** The `column_tracking` record of a dataset. */
  function ProcessedTracking(dataset: string, files: DatasetFiles): ColumnTracking
    requires files.forms.Some?
  {
    ColumnTracking(dataset, files.forms.value.header, files.cognates.Some?)
  }

  /** `process_dataset` (merge_cldf_datasets.py:720-774): a dataset without
      `cldf-metadata.json` raises FileNotFoundError; otherwise the metadata
      and catalogue versions are extracted, `Has_Cognates` records whether a
      cognate table exists, and the tables are those of `ProcessTables`. */
  method ProcessDataset(dataset: string, files: DatasetFiles) returns (r: Result<Processed>)
    ensures r.Ok? <==> files.metadata.Some? && ProcessTables(dataset, files).Ok?
    ensures r.Ok? ==>
      && (r.value.forms, r.value.languages, r.value.parameters) == ProcessTables(dataset, files).value
      && r.value.bibtex == files.bibtex
    ensures r.Ok? ==>
      && r.value.metadata == ProcessedMetadata(dataset, files)
      && r.value.references == ProcessedReferences(dataset, files)
      && r.value.tracking == ProcessedTracking(dataset, files)
  {
    if files.metadata.None? {
      return Err("FileNotFoundError: cldf-metadata.json not found for " + dataset);
    }
    var metadata := ExtractMetadata(files.metadata.value, dataset);
    var references := ExtractReferences(files.metadata.value, dataset);
    var tables := ProcessTables(dataset, files);
    if tables.Err? {
      return Err(tables.error);
    }
    var hasCognates := files.cognates.Some?;
    metadata := metadata.(hasCognates := hasCognates);
    var tracking := ColumnTracking(dataset, files.forms.value.header, hasCognates);
    var (forms, languages, parameters) := tables.value;
    r := Ok(Processed(forms, languages, parameters, metadata, references, files.bibtex, tracking));
  }

  // ---------------------------------------------------------------------
  // Every form comes out exactly once
  // ---------------------------------------------------------------------

  /** A file whose `ID` column holds pairwise distinct values. */
  predicate DistinctIds(f: Csv) {
    forall i, j :: 0 <= i < j < |f.records| ==>
      "ID" in f.records[i] && "ID" in f.records[j] && f.records[i]["ID"] != f.records[j]["ID"]
  }

  /** Namespacing keeps distinct language identifiers distinct. */
  lemma LanguageIdsUnique(file: Csv, dataset: string)
    requires CsvWellFormed(file) && DistinctIds(file)
    ensures UniqueKeys(LoadLanguages(Some(file), dataset).value.rows, "ID")
  {
    LoadLanguagesCells(file, dataset);
    var t := LoadLanguages(Some(file), dataset).value;
    forall i, j | 0 <= i < j < |t.rows| ensures Get(t.rows[i], "ID") != Get(t.rows[j], "ID") {
      if Get(t.rows[i], "ID") == Get(t.rows[j], "ID") {
        PrefixedInjective(dataset, file.records[i]["ID"], file.records[j]["ID"]);
      }
    }
  }

  /** Namespacing keeps distinct concept identifiers distinct. */
  lemma ParameterIdsUnique(file: Csv, dataset: string)
    requires CsvWellFormed(file) && DistinctIds(file)
    ensures UniqueKeys(LoadParameters(Some(file), dataset).value.rows, "ID")
  {
    LoadParametersCells(file, dataset);
    var t := LoadParameters(Some(file), dataset).value;
    forall i, j | 0 <= i < j < |t.rows| ensures Get(t.rows[i], "ID") != Get(t.rows[j], "ID") {
      if Get(t.rows[i], "ID") == Get(t.rows[j], "ID") {
        PrefixedInjective(dataset, file.records[i]["ID"], file.records[j]["ID"]);
      }
    }
  }

  /** The cognate merge keeps the number of forms. */
  lemma MergeKeepsCount(forms: Table, cognates: Option<Table>, dataset: string)
    requires WellFormed(forms) && "Cognateset_ID_from_cognates" !in forms.columns
    ensures var r := MergeCognateData(forms, cognates, dataset);
      r.Ok? ==> |r.value.rows| == |forms.rows|
  {
    if |forms.rows| > 0 {
      MergeCognateDataCells(forms, cognates, dataset, 0, "ID");
    }
  }

  /** The language join keeps the number of forms when the language
      identifiers are unique. */
  lemma LanguageJoinKeepsCount(forms: Table, languages: Table)
    requires UniqueKeys(languages.rows, "ID")
    ensures var r := JoinLanguageMetadata(forms, languages);
      r.Ok? ==> |r.value.rows| == |forms.rows|
  {
    if |forms.rows| > 0 && JoinLanguageMetadata(forms, languages).Ok? {
      JoinLanguageMetadataKeeps(forms, languages, 0, "ID");
    }
  }

  /** The concept join keeps the number of forms when the concept
      identifiers are unique. */
  lemma ParameterJoinKeepsCount(forms: Table, parameters: Table)
    requires UniqueKeys(parameters.rows, "ID")
    ensures var r := JoinParameterMetadata(forms, parameters);
      r.Ok? ==> |r.value.rows| == |forms.rows|
  {
    if |forms.rows| > 0 && JoinParameterMetadata(forms, parameters).Ok? {
      JoinParameterMetadataKeeps(forms, parameters, 0, "ID");
    }
  }

  /** End to end: when the language and concept identifiers of a dataset
      are distinct, every form of its `forms.csv` appears exactly once in
      the processed forms (the judgement aggregate is unique per form by
      construction). */
  lemma ProcessTablesKeepsForms(dataset: string, files: DatasetFiles)
    requires files.forms.Some? && files.languages.Some? && files.parameters.Some?
    requires CsvWellFormed(files.forms.value) && "Cognateset_ID_from_cognates" !in files.forms.value.header
    requires CsvWellFormed(files.languages.value) && DistinctIds(files.languages.value)
    requires CsvWellFormed(files.parameters.value) && DistinctIds(files.parameters.value)
    ensures var r := ProcessTables(dataset, files);
      r.Ok? ==> |r.value.0.rows| == |files.forms.value.records|
  {
    LoadFormsCells(files.forms.value, dataset);
    LanguageIdsUnique(files.languages.value, dataset);
    ParameterIdsUnique(files.parameters.value, dataset);
    var forms := LoadForms(files.forms, dataset).value.0;
    var languages := LoadLanguages(files.languages, dataset).value;
    var parameters := LoadParameters(files.parameters, dataset).value;
    var cognates := LoadCognates(files.cognates, dataset);
    MergeKeepsCount(forms, cognates, dataset);
    var merged := MergeCognateData(forms, cognates, dataset);
    if merged.Ok? {
      LanguageJoinKeepsCount(merged.value, languages);
      var joined := JoinLanguageMetadata(merged.value, languages);
      if joined.Ok? {
        ParameterJoinKeepsCount(joined.value, parameters);
      }
    }
  }

  /** No column of the forms schema ends with one of the merge suffixes,
      so none is dropped or shadowed by the merges. */
  lemma FormsColumnsUnsuffixed(c: string)
    requires c in FormsColumns
    ensures !EndsWith(c, "_drop") && !EndsWith(c, "_lang") && !EndsWith(c, "_param")
  {
    if c != "Form" {
      assert c[|c| - 1] !in {'p', 'g', 'm'};
      NotEndsWith(c, "_drop");
      NotEndsWith(c, "_lang");
      NotEndsWith(c, "_param");
    }
  }

  /** End to end, form by form: when the language and concept identifiers
      of a dataset are distinct, the `k`-th processed form is the `k`-th
      record of its `forms.csv`: it carries that record's namespaced `ID`,
      the dataset name, and every other schema column the file has, as
      loaded (the `Cognacy` column is the one the cognate merge rewrites,
      see `Cognates.MergeCognateDataCells`). */
  lemma ProcessTablesFormCells(dataset: string, files: DatasetFiles, k: nat, c: string)
    requires files.forms.Some? && files.languages.Some? && files.parameters.Some?
    requires CsvWellFormed(files.forms.value) && "Cognateset_ID_from_cognates" !in files.forms.value.header
    requires CsvWellFormed(files.languages.value) && DistinctIds(files.languages.value)
    requires CsvWellFormed(files.parameters.value) && DistinctIds(files.parameters.value)
    requires k < |files.forms.value.records|
    requires c in FormsColumns && c != "Cognacy" && (c in files.forms.value.header || c == "Dataset")
    ensures var r := ProcessTables(dataset, files);
      r.Ok? ==> && |r.value.0.rows| == |files.forms.value.records|
                && Get(r.value.0.rows[k], c) == FormCell(files.forms.value.records[k], c, dataset)
  {
    ProcessTablesKeepsForms(dataset, files);
    FormsColumnsUnsuffixed(c);
    LoadFormsCells(files.forms.value, dataset);
    LanguageIdsUnique(files.languages.value, dataset);
    ParameterIdsUnique(files.parameters.value, dataset);
    var forms := LoadForms(files.forms, dataset).value.0;
    var languages := LoadLanguages(files.languages, dataset).value;
    var parameters := LoadParameters(files.parameters, dataset).value;
    var cognates := LoadCognates(files.cognates, dataset);
    var merged := MergeCognateData(forms, cognates, dataset);
    if merged.Ok? {
      MergeCognateDataCells(forms, cognates, dataset, k, c);
      var joined := JoinLanguageMetadata(merged.value, languages);
      if joined.Ok? {
        JoinLanguageMetadataKeeps(merged.value, languages, k, c);
        var joined' := JoinParameterMetadata(joined.value, parameters);
        if joined'.Ok? {
          JoinParameterMetadataKeeps(joined.value, parameters, k, c);
        }
      }
    }
  }
}
