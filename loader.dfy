/** Loading one dataset's CLDF tables (merge_cldf_datasets.py:145-153,
    435-565). A CSV file arrives as `pd.read_csv(dtype=str,
    keep_default_na=False)` leaves it: a header and string cells, the empty
    string included. Each loader adds the `Dataset` column where the source
    does, namespaces the identifier columns, rewrites citation keys, maps
    boolean columns, and finally turns empty strings into NA. */
module Loader {
  import opened Wrappers
  import opened Text
  import opened Tables
  import opened Namespace

  /** A CSV file as read with every column as a string. */
  datatype Csv = Csv(header: seq<string>, records: seq<map<string, string>>)

  ghost predicate CsvWellFormed(f: Csv) {
    && DistinctNames(f.header)
    && forall k :: 0 <= k < |f.records| ==> forall c :: c in f.records[k] <==> c in f.header
  }

  /** The frame `read_csv` produces: every cell a string. */
  function Raw(f: Csv): (t: Table)
    ensures t.columns == f.header && |t.rows| == |f.records|
    ensures forall k, c :: 0 <= k < |t.rows| ==>
      Get(t.rows[k], c) == if c in f.records[k] then Text(f.records[k][c]) else Null
  {
    Table(f.header, seq(|f.records|, k requires 0 <= k < |f.records| =>
      map c | c in f.records[k] :: Text(f.records[k][c])))
  }

  lemma RawWellFormed(f: Csv)
    requires CsvWellFormed(f)
    ensures WellFormed(Raw(f))
  {
  }

  // ---------------------------------------------------------------------
  // Column rewrites
  // ---------------------------------------------------------------------

  /** `'' -> NA`. */
  function NonEmpty(c: Cell): (r: Cell)
    ensures r == Null <==> c == Null || c == Text("")
    ensures r != Null ==> r == c
  {
    if c == Text("") then Null else c
  }

  /** `x.map({'true': True, 'false': False}).astype('boolean')`: exactly the
      two lower-case spellings become booleans; anything else is NA. */
  function BoolCell(c: Cell): (r: Cell)
    ensures r == Flag(true) <==> c == Text("true")
    ensures r == Flag(false) <==> c == Text("false")
    ensures r == Null <==> c != Text("true") && c != Text("false")
  {
    if c == Text("true") then Flag(true)
    else if c == Text("false") then Flag(false)
    else Null
  }

  /** `df[c] = prefix_ids_column(df[c], dataset)` when the column exists. */
  function PrefixColumn(t: Table, c: string, dataset: string): (r: Table)
    ensures r.columns == t.columns && |r.rows| == |t.rows|
    ensures forall k, d :: 0 <= k < |r.rows| ==>
      Get(r.rows[k], d) == if d == c && c in t.columns then PrefixId(Get(t.rows[k], d), dataset) else Get(t.rows[k], d)
  {
    if c in t.columns then SetColumn(t, c, PrefixIds(Column(t, c), dataset)) else t
  }

  /** `df[c] = df[c].apply(f)` / `.map(f)` when the column exists. */
  function MapColumn(t: Table, c: string, f: Cell -> Cell): (r: Table)
    ensures r.columns == t.columns && |r.rows| == |t.rows|
    ensures forall k, d :: 0 <= k < |r.rows| ==>
      Get(r.rows[k], d) == if d == c && c in t.columns then f(Get(t.rows[k], d)) else Get(t.rows[k], d)
  {
    if c in t.columns then SetColumn(t, c, seq(|t.rows|, k requires 0 <= k < |t.rows| => f(Get(t.rows[k], c))))
    else t
  }

  /** `df['Dataset'] = dataset`. */
  function AddDataset(t: Table, dataset: string): (r: Table)
    ensures r.columns == if "Dataset" in t.columns then t.columns else t.columns + ["Dataset"]
    ensures |r.rows| == |t.rows|
    ensures forall k, d :: 0 <= k < |r.rows| ==>
      Get(r.rows[k], d) == if d == "Dataset" then Text(dataset) else Get(t.rows[k], d)
  {
    SetColumn(t, "Dataset", seq(|t.rows|, _ => Text(dataset)))
  }

  /** `prefix_bibtex_keys(x, dataset) if x else ''`: for a string cell the
      guard changes nothing, since the empty string comes back as itself. */
  function SourceCell(c: Cell, dataset: string): (r: Cell)
    ensures c == Text("") ==> r == Text("")
  {
    if c == Text("") then Text("") else PrefixBibtexKeys(c, dataset)
  }

  // ---------------------------------------------------------------------
  // The four loaders
  // ---------------------------------------------------------------------

  /** `load_dataset_forms` (merge_cldf_datasets.py:435-475): the frame and
      the file's own column names; a missing file raises. */
  function LoadForms(file: Option<Csv>, dataset: string): (r: Result<(Table, seq<string>)>)
    ensures r.Err? <==> file.None?
    ensures r.Ok? ==> r.value.1 == file.value.header && |r.value.0.rows| == |file.value.records|
  {
    if file.None? then Err("FileNotFoundError: forms.csv not found for " + dataset)
    else Ok((NullEmpty(FormsStaged(file.value, dataset), {"Dataset"}), file.value.header))
  }

  /** The forms frame before empty strings become NA. */
  function FormsStaged(f: Csv, dataset: string): (t: Table)
    ensures |t.rows| == |f.records|
  {
    var df := AddDataset(Raw(f), dataset);
    var df := PrefixColumn(df, "ID", dataset);
    var df := PrefixColumn(df, "Language_ID", dataset);
    var df := PrefixColumn(df, "Parameter_ID", dataset);
    var df := MapColumn(df, "Source", x => SourceCell(x, dataset));
    MapColumn(df, "Loan", BoolCell)
  }

  /** `load_dataset_languages` (merge_cldf_datasets.py:478-505). */
  function LoadLanguages(file: Option<Csv>, dataset: string): (r: Result<Table>)
    ensures r.Err? <==> file.None?
    ensures r.Ok? ==> |r.value.rows| == |file.value.records|
  {
    if file.None? then Err("FileNotFoundError: languages.csv not found for " + dataset)
    else Ok(NullEmpty(LanguagesStaged(file.value, dataset), {"Dataset"}))
  }

  /** The languages frame before empty strings become NA. */
  function LanguagesStaged(f: Csv, dataset: string): (t: Table)
    ensures |t.rows| == |f.records|
  {
    var df := AddDataset(Raw(f), dataset);
    var df := PrefixColumn(df, "ID", dataset);
    var df := MapColumn(df, "Latitude", NonEmpty);
    MapColumn(df, "Longitude", NonEmpty)
  }

  /** `load_dataset_parameters` (merge_cldf_datasets.py:508-529). */
  function LoadParameters(file: Option<Csv>, dataset: string): (r: Result<Table>)
    ensures r.Err? <==> file.None?
    ensures r.Ok? ==> |r.value.rows| == |file.value.records|
  {
    if file.None? then Err("FileNotFoundError: parameters.csv not found for " + dataset)
    else Ok(NullEmpty(PrefixColumn(AddDataset(Raw(file.value), dataset), "ID", dataset), {"Dataset"}))
  }

  /** `load_dataset_cognates` (merge_cldf_datasets.py:532-565): no frame when
      the file is absent, and no `Dataset` column. */
  function LoadCognates(file: Option<Csv>, dataset: string): (r: Option<Table>)
    ensures r.None? <==> file.None?
    ensures r.Some? ==> r.value.columns == file.value.header && |r.value.rows| == |file.value.records|
  {
    if file.None? then None
    else Some(NullEmpty(CognatesStaged(file.value, dataset), {}))
  }

  /** The cognates frame before empty strings become NA. */
  function CognatesStaged(f: Csv, dataset: string): (t: Table)
    ensures t.columns == f.header && |t.rows| == |f.records|
  {
    var df := Raw(f);
    var df := PrefixColumn(df, "Form_ID", dataset);
    var df := PrefixColumn(df, "Cognateset_ID", dataset);
    var df := MapColumn(df, "Source", x => SourceCell(x, dataset));
    MapColumn(df, "Doubt", BoolCell)
  }

  // ---------------------------------------------------------------------
  // What a loaded cell holds, cell by cell
  // ---------------------------------------------------------------------

  /** The loaded value of column `c` for a form whose CSV record is `rec`. */
  function FormCell(rec: map<string, string>, c: string, dataset: string): Cell {
    if c == "Dataset" then Text(dataset)
    else if c !in rec then Null
    else if c == "ID" || c == "Language_ID" || c == "Parameter_ID" then Text(Prefixed(dataset, rec[c]))
    else if c == "Loan" then BoolCell(Text(rec[c]))
    else if c == "Source" then NonEmpty(PrefixBibtexKeys(Text(rec[c]), dataset))
    else NonEmpty(Text(rec[c]))
  }

  /** The loaded value of column `c` for a language or a parameter. */
  function EntityCell(rec: map<string, string>, c: string, dataset: string): Cell {
    if c == "Dataset" then Text(dataset)
    else if c !in rec then Null
    else if c == "ID" then Text(Prefixed(dataset, rec[c]))
    else NonEmpty(Text(rec[c]))
  }

  /** The loaded value of column `c` for a cognate judgement. */
  function CognateCell(rec: map<string, string>, c: string, dataset: string): Cell {
    if c !in rec then Null
    else if c in ["Form_ID", "Cognateset_ID"] then Text(Prefixed(dataset, rec[c]))
    else if c == "Doubt" then BoolCell(Text(rec[c]))
    else if c == "Source" then NonEmpty(PrefixBibtexKeys(Text(rec[c]), dataset))
    else NonEmpty(Text(rec[c]))
  }

  lemma PrefixColumnWellFormed(t: Table, c: string, dataset: string)
    requires WellFormed(t)
    ensures WellFormed(PrefixColumn(t, c, dataset))
  {
    if c in t.columns {
      SetColumnWellFormed(t, c, PrefixIds(Column(t, c), dataset));
    }
  }

  lemma MapColumnWellFormed(t: Table, c: string, f: Cell -> Cell)
    requires WellFormed(t)
    ensures WellFormed(MapColumn(t, c, f))
  {
    if c in t.columns {
      SetColumnWellFormed(t, c, seq(|t.rows|, k requires 0 <= k < |t.rows| => f(Get(t.rows[k], c))));
    }
  }

  lemma AddDatasetWellFormed(f: Csv, dataset: string)
    requires CsvWellFormed(f)
    ensures WellFormed(AddDataset(Raw(f), dataset))
  {
    RawWellFormed(f);
    SetColumnWellFormed(Raw(f), "Dataset", seq(|f.records|, _ => Text(dataset)));
  }

  /** One cell of the staged forms frame. */
  lemma FormsStagedCell(f: Csv, dataset: string, k: nat, c: string)
    requires CsvWellFormed(f) && k < |f.records|
    ensures Get(NullEmpty(FormsStaged(f, dataset), {"Dataset"}).rows[k], c) == FormCell(f.records[k], c, dataset)
  {
    var rec := f.records[k];
    var t0 := AddDataset(Raw(f), dataset);
    var t3 := PrefixColumn(PrefixColumn(PrefixColumn(t0, "ID", dataset), "Language_ID", dataset), "Parameter_ID", dataset);
    assert MapColumn(MapColumn(t3, "Source", x => SourceCell(x, dataset)), "Loan", BoolCell) == FormsStaged(f, dataset);
    var raw := if c in rec then Text(rec[c]) else Null;
    assert Get(t0.rows[k], c) == if c == "Dataset" then Text(dataset) else raw;
    assert c in t0.columns <==> c == "Dataset" || c in rec;
    FormIdsCell(t0, dataset, k, c);
    FormsRewriteCell(t3, dataset, k, c);
    FormCellCases(rec, c, dataset);
  }

  /** The staged rewrites of one form cell, followed by empty-to-NA,
      give `FormCell`. */
  lemma FormCellCases(rec: map<string, string>, c: string, dataset: string)
    ensures var raw := if c in rec then Text(rec[c]) else Null;
      var v0 := if c == "Dataset" then Text(dataset) else raw;
      var present := c == "Dataset" || c in rec;
      var v3 := if (c == "ID" || c == "Language_ID" || c == "Parameter_ID") && present then PrefixId(v0, dataset) else v0;
      var v5 := if c == "Source" && present then SourceCell(v3, dataset)
                else if c == "Loan" && present then BoolCell(v3) else v3;
      (if c !in {"Dataset"} && v5 == Text("") then Null else v5) == FormCell(rec, c, dataset)
  {
  }

  /** The three identifier columns of the forms frame are namespaced, and
      no other cell changes. */
  lemma FormIdsCell(t0: Table, dataset: string, k: nat, c: string)
    requires k < |t0.rows|
    ensures var t3 := PrefixColumn(PrefixColumn(PrefixColumn(t0, "ID", dataset), "Language_ID", dataset), "Parameter_ID", dataset);
      && t3.columns == t0.columns && |t3.rows| == |t0.rows|
      && Get(t3.rows[k], c) ==
           if (c == "ID" || c == "Language_ID" || c == "Parameter_ID") && c in t0.columns
           then PrefixId(Get(t0.rows[k], c), dataset) else Get(t0.rows[k], c)
  {
  }

  /** Citation keys and the loan flag of the forms frame are rewritten,
      and no other cell changes. */
  lemma FormsRewriteCell(t3: Table, dataset: string, k: nat, c: string)
    requires k < |t3.rows|
    ensures var t5 := MapColumn(MapColumn(t3, "Source", x => SourceCell(x, dataset)), "Loan", BoolCell);
      Get(t5.rows[k], c) ==
        if c == "Source" && c in t3.columns then SourceCell(Get(t3.rows[k], c), dataset)
        else if c == "Loan" && c in t3.columns then BoolCell(Get(t3.rows[k], c))
        else Get(t3.rows[k], c)
  {
  }

  /** The staged rewrite of `load_dataset_forms` produces, in every cell,
      the value `FormCell` describes; the frame keeps the file's columns,
      adds `Dataset` last when the file lacks it, and is well formed. */
  lemma LoadFormsCells(file: Csv, dataset: string)
    requires CsvWellFormed(file)
    ensures LoadForms(Some(file), dataset).Ok?
    ensures var t := LoadForms(Some(file), dataset).value.0;
      && WellFormed(t)
      && t.columns == (if "Dataset" in file.header then file.header else file.header + ["Dataset"])
      && |t.rows| == |file.records|
      && forall k, c :: 0 <= k < |t.rows| ==> Get(t.rows[k], c) == FormCell(file.records[k], c, dataset)
  {
    var t0 := AddDataset(Raw(file), dataset);
    AddDatasetWellFormed(file, dataset);
    PrefixColumnWellFormed(t0, "ID", dataset);
    var t1 := PrefixColumn(t0, "ID", dataset);
    PrefixColumnWellFormed(t1, "Language_ID", dataset);
    var t2 := PrefixColumn(t1, "Language_ID", dataset);
    PrefixColumnWellFormed(t2, "Parameter_ID", dataset);
    var t3 := PrefixColumn(t2, "Parameter_ID", dataset);
    MapColumnWellFormed(t3, "Source", x => SourceCell(x, dataset));
    var t4 := MapColumn(t3, "Source", x => SourceCell(x, dataset));
    MapColumnWellFormed(t4, "Loan", BoolCell);
    assert MapColumn(t4, "Loan", BoolCell) == FormsStaged(file, dataset);
    var t := LoadForms(Some(file), dataset).value.0;
    forall k, c | 0 <= k < |t.rows| ensures Get(t.rows[k], c) == FormCell(file.records[k], c, dataset) {
      FormsStagedCell(file, dataset, k, c);
    }
  }

  /** An empty identifier is not NA after loading: it becomes the bare
      namespace prefix `"{dataset}_"`. */
  lemma EmptyIdBecomesPrefix(file: Csv, dataset: string, k: nat)
    requires CsvWellFormed(file) && k < |file.records|
    requires "ID" in file.header && file.records[k]["ID"] == ""
    ensures Get(LoadForms(Some(file), dataset).value.0.rows[k], "ID") == Text(dataset + "_")
  {
    FormsStagedCell(file, dataset, k, "ID");
  }

  /** One cell of the staged languages frame. */
  lemma LanguagesStagedCell(f: Csv, dataset: string, k: nat, c: string)
    requires CsvWellFormed(f) && k < |f.records|
    ensures Get(NullEmpty(LanguagesStaged(f, dataset), {"Dataset"}).rows[k], c) == EntityCell(f.records[k], c, dataset)
  {
    var rec := f.records[k];
    var t0 := AddDataset(Raw(f), dataset);
    var t1 := PrefixColumn(t0, "ID", dataset);
    assert MapColumn(MapColumn(t1, "Latitude", NonEmpty), "Longitude", NonEmpty) == LanguagesStaged(f, dataset);
    var raw := if c in rec then Text(rec[c]) else Null;
    assert Get(t0.rows[k], c) == if c == "Dataset" then Text(dataset) else raw;
    assert c in t0.columns <==> c == "Dataset" || c in rec;
    CoordinatesCell(t1, k, c);
    LanguageCellCases(rec, c, dataset);
  }

  /** The coordinate columns keep only non-empty values, and no other cell
      changes. */
  lemma CoordinatesCell(t1: Table, k: nat, c: string)
    requires k < |t1.rows|
    ensures var t3 := MapColumn(MapColumn(t1, "Latitude", NonEmpty), "Longitude", NonEmpty);
      Get(t3.rows[k], c) ==
        if (c == "Latitude" || c == "Longitude") && c in t1.columns then NonEmpty(Get(t1.rows[k], c))
        else Get(t1.rows[k], c)
  {
  }

  /** The staged rewrites of one language cell, followed by empty-to-NA,
      give `EntityCell`. */
  lemma LanguageCellCases(rec: map<string, string>, c: string, dataset: string)
    ensures var raw := if c in rec then Text(rec[c]) else Null;
      var v0 := if c == "Dataset" then Text(dataset) else raw;
      var present := c == "Dataset" || c in rec;
      var v1 := if c == "ID" && present then PrefixId(v0, dataset) else v0;
      var v3 := if (c == "Latitude" || c == "Longitude") && present then NonEmpty(v1) else v1;
      (if c !in {"Dataset"} && v3 == Text("") then Null else v3) == EntityCell(rec, c, dataset)
  {
  }

  /** `load_dataset_languages` cell by cell. */
  lemma LoadLanguagesCells(file: Csv, dataset: string)
    requires CsvWellFormed(file)
    ensures LoadLanguages(Some(file), dataset).Ok?
    ensures var t := LoadLanguages(Some(file), dataset).value;
      && WellFormed(t)
      && t.columns == (if "Dataset" in file.header then file.header else file.header + ["Dataset"])
      && forall k, c :: 0 <= k < |t.rows| ==> Get(t.rows[k], c) == EntityCell(file.records[k], c, dataset)
  {
    var t0 := AddDataset(Raw(file), dataset);
    AddDatasetWellFormed(file, dataset);
    PrefixColumnWellFormed(t0, "ID", dataset);
    var t1 := PrefixColumn(t0, "ID", dataset);
    MapColumnWellFormed(t1, "Latitude", NonEmpty);
    var t2 := MapColumn(t1, "Latitude", NonEmpty);
    MapColumnWellFormed(t2, "Longitude", NonEmpty);
    assert MapColumn(t2, "Longitude", NonEmpty) == LanguagesStaged(file, dataset);
    var t := LoadLanguages(Some(file), dataset).value;
    forall k, c | 0 <= k < |t.rows| ensures Get(t.rows[k], c) == EntityCell(file.records[k], c, dataset) {
      LanguagesStagedCell(file, dataset, k, c);
    }
  }

  /** `load_dataset_parameters` cell by cell. */
  lemma LoadParametersCells(file: Csv, dataset: string)
    requires CsvWellFormed(file)
    ensures LoadParameters(Some(file), dataset).Ok?
    ensures var t := LoadParameters(Some(file), dataset).value;
      && WellFormed(t)
      && t.columns == (if "Dataset" in file.header then file.header else file.header + ["Dataset"])
      && forall k, c :: 0 <= k < |t.rows| ==> Get(t.rows[k], c) == EntityCell(file.records[k], c, dataset)
  {
    var t0 := AddDataset(Raw(file), dataset);
    AddDatasetWellFormed(file, dataset);
    PrefixColumnWellFormed(t0, "ID", dataset);
    var t1 := PrefixColumn(t0, "ID", dataset);
    var t := LoadParameters(Some(file), dataset).value;
    assert t == NullEmpty(t1, {"Dataset"});
    forall k, c | 0 <= k < |t.rows| ensures Get(t.rows[k], c) == EntityCell(file.records[k], c, dataset) {
      var rec := file.records[k];
      var raw := if c in rec then Text(rec[c]) else Null;
      assert Get(t0.rows[k], c) == if c == "Dataset" then Text(dataset) else raw;
      assert c in t0.columns <==> c == "Dataset" || c in rec;
    }
  }

  /** One cell of the staged cognates frame. */
  lemma CognatesStagedCell(f: Csv, dataset: string, k: nat, c: string)
    requires CsvWellFormed(f) && k < |f.records|
    ensures Get(NullEmpty(CognatesStaged(f, dataset), {}).rows[k], c) == CognateCell(f.records[k], c, dataset)
  {
    var rec := f.records[k];
    var t0 := Raw(f);
    var t2 := PrefixColumn(PrefixColumn(t0, "Form_ID", dataset), "Cognateset_ID", dataset);
    assert MapColumn(MapColumn(t2, "Source", x => SourceCell(x, dataset)), "Doubt", BoolCell) == CognatesStaged(f, dataset);
    var raw := if c in rec then Text(rec[c]) else Null;
    assert Get(t0.rows[k], c) == raw;
    assert c in t0.columns <==> c in rec;
    CognateIdsCell(t0, dataset, k, c);
    CognatesRewriteCell(t2, dataset, k, c);
    CognateCellCases(rec, c, dataset);
  }

  /** The two identifier columns of the cognates frame are namespaced, and
      no other cell changes. */
  lemma CognateIdsCell(t0: Table, dataset: string, k: nat, c: string)
    requires k < |t0.rows|
    ensures var t2 := PrefixColumn(PrefixColumn(t0, "Form_ID", dataset), "Cognateset_ID", dataset);
      && t2.columns == t0.columns && |t2.rows| == |t0.rows|
      && Get(t2.rows[k], c) ==
           if (c == "Form_ID" || c == "Cognateset_ID") && c in t0.columns
           then PrefixId(Get(t0.rows[k], c), dataset) else Get(t0.rows[k], c)
  {
  }

  /** Citation keys and the doubt flag of the cognates frame are
      rewritten, and no other cell changes. */
  lemma CognatesRewriteCell(t2: Table, dataset: string, k: nat, c: string)
    requires k < |t2.rows|
    ensures var t4 := MapColumn(MapColumn(t2, "Source", x => SourceCell(x, dataset)), "Doubt", BoolCell);
      Get(t4.rows[k], c) ==
        if c == "Source" && c in t2.columns then SourceCell(Get(t2.rows[k], c), dataset)
        else if c == "Doubt" && c in t2.columns then BoolCell(Get(t2.rows[k], c))
        else Get(t2.rows[k], c)
  {
  }

  /** The staged rewrites of one judgement cell, followed by empty-to-NA,
      give `CognateCell`. */
  lemma CognateCellCases(rec: map<string, string>, c: string, dataset: string)
    ensures var raw := if c in rec then Text(rec[c]) else Null;
      var v2 := if (c == "Form_ID" || c == "Cognateset_ID") && c in rec then PrefixId(raw, dataset) else raw;
      var v4 := if c == "Source" && c in rec then SourceCell(v2, dataset)
                else if c == "Doubt" && c in rec then BoolCell(v2) else v2;
      (if c !in {} && v4 == Text("") then Null else v4) == CognateCell(rec, c, dataset)
  {
  }

  /** `load_dataset_cognates` cell by cell. */
  lemma LoadCognatesCells(file: Csv, dataset: string)
    requires CsvWellFormed(file)
    ensures LoadCognates(Some(file), dataset).Some?
    ensures var t := LoadCognates(Some(file), dataset).value;
      && WellFormed(t)
      && forall k, c :: 0 <= k < |t.rows| ==> Get(t.rows[k], c) == CognateCell(file.records[k], c, dataset)
  {
    var t0 := Raw(file);
    RawWellFormed(file);
    PrefixColumnWellFormed(t0, "Form_ID", dataset);
    var t1 := PrefixColumn(t0, "Form_ID", dataset);
    PrefixColumnWellFormed(t1, "Cognateset_ID", dataset);
    var t2 := PrefixColumn(t1, "Cognateset_ID", dataset);
    MapColumnWellFormed(t2, "Source", x => SourceCell(x, dataset));
    var t3 := MapColumn(t2, "Source", x => SourceCell(x, dataset));
    MapColumnWellFormed(t3, "Doubt", BoolCell);
    assert MapColumn(t3, "Doubt", BoolCell) == CognatesStaged(file, dataset);
    var t := LoadCognates(Some(file), dataset).value;
    forall k, c | 0 <= k < |t.rows| ensures Get(t.rows[k], c) == CognateCell(file.records[k], c, dataset) {
      CognatesStagedCell(file, dataset, k, c);
    }
  }

  // ---------------------------------------------------------------------
  // Column provenance
  // ---------------------------------------------------------------------

  /** `track_column_presence` (merge_cldf_datasets.py:145-153): for each
      column of the frame, whether the source file had it. */
  function TrackColumnPresence(columns: seq<string>, original: seq<string>): (r: map<string, bool>)
    ensures forall c :: c in r <==> c in columns
    ensures forall c :: c in r ==> (r[c] <==> c in original)
  {
    map c | c in columns :: c in original
  }

  /** After loading forms, every file column is marked present, and the
      added `Dataset` column is marked present only when the file had it. */
  lemma LoadedFormsPresence(file: Csv, dataset: string)
    requires CsvWellFormed(file)
    ensures var (t, original) := LoadForms(Some(file), dataset).value;
      var presence := TrackColumnPresence(t.columns, original);
      && (forall c :: c in file.header ==> c in presence && presence[c])
      && "Dataset" in presence && (presence["Dataset"] <==> "Dataset" in file.header)
  {
    LoadFormsColumns(file, dataset);
    PresenceOfAppended(file.header, "Dataset");
  }

  /** The loaded forms frame has the file's columns, with `Dataset` added
      last when the file lacks it. */
  lemma LoadFormsColumns(file: Csv, dataset: string)
    ensures LoadForms(Some(file), dataset).Ok?
    ensures var (t, original) := LoadForms(Some(file), dataset).value;
      && original == file.header
      && t.columns == if "Dataset" in file.header then file.header else file.header + ["Dataset"]
  {
    var t0 := AddDataset(Raw(file), dataset);
    assert LoadForms(Some(file), dataset).value.0.columns == t0.columns;
  }

  /** Tracking the columns of a header extended with one column marks the
      header's columns present and the extra one present only when the
      header had it. */
  lemma PresenceOfAppended(header: seq<string>, extra: string)
    ensures var presence := TrackColumnPresence(if extra in header then header else header + [extra], header);
      && (forall c :: c in header ==> c in presence && presence[c])
      && extra in presence && (presence[extra] <==> extra in header)
  {
  }
}
