/** Dataset metadata and reference-catalogue versions read from a
    dataset's `cldf-metadata.json` (merge_cldf_datasets.py:350-430). Both
    extractors scan lists and overwrite a local on every match, so the
    LAST matching entry wins; the specification functions below name that
    entry by its index. */
module Metadata {
  import opened Wrappers
  import opened Text

  /** One entry of the JSON `tables` list; an absent key is `None`. */
  datatype TableDescriptor = TableDescriptor(conformsTo: Option<string>, extent: Option<int>)

  /** One entry of `prov:wasDerivedFrom` or `prov:wasGeneratedBy`. */
  datatype Provenance = Provenance(title: Option<string>, created: Option<string>, description: Option<string>)

  /** The parsed `cldf-metadata.json`; an absent list is the empty list. */
  datatype MetadataJson = MetadataJson(
    conformsTo: Option<string>,
    title: Option<string>,
    citation: Option<string>,
    accessUrl: Option<string>,
    license: Option<string>,
    tables: seq<TableDescriptor>,
    derivedFrom: seq<Provenance>,
    generatedBy: seq<Provenance>)

  /** The row `extract_metadata` returns for a dataset. */
  datatype DatasetMetadata = DatasetMetadata(
    dataset: string,
    title: string,
    citation: string,
    url: string,
    license: string,
    cldfModule: string,
    repositoryVersion: Option<string>,
    pythonVersion: Option<string>,
    formCount: int,
    languageCount: int,
    parameterCount: int,
    hasCognates: bool)

  /** The row `extract_references` returns for a dataset. */
  datatype References = References(
    dataset: string,
    glottolog: Option<string>,
    concepticon: Option<string>,
    clts: Option<string>)

  datatype TableKind = FormKind | LanguageKind | ParameterKind | OtherKind

  /** The `if`/`elif` chain on `dc:conformsTo` (merge_cldf_datasets.py:364-369):
      the first of `FormTable`, `LanguageTable`, `ParameterTable` that occurs
      in it decides; an absent `dc:conformsTo` reads as `""`. */
  function KindOf(t: TableDescriptor): TableKind {
    var cc := t.conformsTo.GetOr("");
    if Contains(cc, "FormTable") then FormKind
    else if Contains(cc, "LanguageTable") then LanguageKind
    else if Contains(cc, "ParameterTable") then ParameterKind
    else OtherKind
  }

  /** The index of the last table of kind `k`, if any. */
  function LastOfKind(tables: seq<TableDescriptor>, k: TableKind): (r: Option<nat>)
    ensures r.None? <==> forall j :: 0 <= j < |tables| ==> KindOf(tables[j]) != k
    ensures r.Some? ==> r.value < |tables| && KindOf(tables[r.value]) == k
    ensures r.Some? ==> forall j :: r.value < j < |tables| ==> KindOf(tables[j]) != k
  {
    if tables == [] then None
    else if KindOf(tables[|tables| - 1]) == k then Some(|tables| - 1)
    else LastOfKind(tables[..|tables| - 1], k)
  }

  /** The count `extract_metadata` reports for kind `k`: the `dc:extent` of
      the last table of that kind (0 when it has none), or 0 when there is
      no such table. */
  function ExtentOfKind(tables: seq<TableDescriptor>, k: TableKind): int {
    match LastOfKind(tables, k)
    case None => 0
    case Some(j) => tables[j].extent.GetOr(0)
  }

  /** The index of the last provenance item titled `title`, if any. */
  function LastTitled(items: seq<Provenance>, title: string): (r: Option<nat>)
    ensures r.None? <==> forall j :: 0 <= j < |items| ==> items[j].title != Some(title)
    ensures r.Some? ==> r.value < |items| && items[r.value].title == Some(title)
    ensures r.Some? ==> forall j :: r.value < j < |items| ==> items[j].title != Some(title)
  {
    if items == [] then None
    else if items[|items| - 1].title == Some(title) then Some(|items| - 1)
    else LastTitled(items[..|items| - 1], title)
  }

  /** `dc:created` of the last item titled `title`; `None` when there is no
      such item or that item has no `dc:created`. */
  function CreatedOf(items: seq<Provenance>, title: string): Option<string> {
    match LastTitled(items, title)
    case None => None
    case Some(j) => items[j].created
  }

  /** `dc:description` of the last item titled `title`. */
  function DescriptionOf(items: seq<Provenance>, title: string): Option<string> {
    match LastTitled(items, title)
    case None => None
    case Some(j) => items[j].description
  }

  /** The `cldf_module` of a dataset: the text after the last `#` of the
      top-level `dc:conformsTo`, or all of it when it holds no `#`. */
  function CldfModule(m: MetadataJson): (r: string)
    ensures '#' !in r
    ensures '#' !in m.conformsTo.GetOr("") ==> r == m.conformsTo.GetOr("")
    ensures var cc := m.conformsTo.GetOr("");
      '#' in cc ==> |r| < |cc| && cc[|cc| - |r| - 1] == '#' && cc[|cc| - |r|..] == r
  {
    AfterLast(m.conformsTo.GetOr(""), '#')
  }

  /** Scanning one more table extends the prefix the scan has seen. */
  lemma LastOfKindStep(tables: seq<TableDescriptor>, k: TableKind, i: nat)
    requires i < |tables|
    ensures LastOfKind(tables[..i + 1], k)
      == if KindOf(tables[i]) == k then Some(i) else LastOfKind(tables[..i], k)
  {
    assert tables[..i + 1][..i] == tables[..i];
  }

  lemma LastTitledStep(items: seq<Provenance>, title: string, i: nat)
    requires i < |items|
    ensures LastTitled(items[..i + 1], title)
      == if items[i].title == Some(title) then Some(i) else LastTitled(items[..i], title)
  {
    assert items[..i + 1][..i] == items[..i];
  }

  /** `extract_metadata` (merge_cldf_datasets.py:350-401): the three
      counts are those of the last table of each kind, the repository
      version is the `dc:created` of the last `Repository` item, the Python
      version the `dc:description` of the last `python` item; the scalar
      fields default to `""`, and `Has_Cognates` starts out false. */
  method ExtractMetadata(m: MetadataJson, dataset: string) returns (r: DatasetMetadata)
    ensures r.formCount == ExtentOfKind(m.tables, FormKind)
    ensures r.languageCount == ExtentOfKind(m.tables, LanguageKind)
    ensures r.parameterCount == ExtentOfKind(m.tables, ParameterKind)
    ensures r.repositoryVersion == CreatedOf(m.derivedFrom, "Repository")
    ensures r.pythonVersion == DescriptionOf(m.generatedBy, "python")
    ensures r.cldfModule == CldfModule(m)
    ensures r.dataset == dataset && !r.hasCognates
    ensures r.title == m.title.GetOr("") && r.citation == m.citation.GetOr("")
    ensures r.url == m.accessUrl.GetOr("") && r.license == m.license.GetOr("")
  {
    var formCount, languageCount, parameterCount := CountTables(m.tables);
    var repoVersion := LastCreated(m.derivedFrom, "Repository");
    var pythonVersion := LastDescription(m.generatedBy, "python");
    var cldfModule := m.conformsTo.GetOr("");
    if '#' in cldfModule {
      cldfModule := AfterLast(cldfModule, '#');
    }
    r := DatasetMetadata(dataset, m.title.GetOr(""), m.citation.GetOr(""), m.accessUrl.GetOr(""),
      m.license.GetOr(""), cldfModule, repoVersion, pythonVersion,
      formCount, languageCount, parameterCount, false);
  }

  /** The loop over `tables` of `extract_metadata`
      (merge_cldf_datasets.py:363-369): every table of a kind overwrites
      that kind's count with its `dc:extent`. */
  method CountTables(tables: seq<TableDescriptor>) returns (formCount: int, languageCount: int, parameterCount: int)
    ensures formCount == ExtentOfKind(tables, FormKind)
    ensures languageCount == ExtentOfKind(tables, LanguageKind)
    ensures parameterCount == ExtentOfKind(tables, ParameterKind)
  {
    formCount, languageCount, parameterCount := 0, 0, 0;
    for i := 0 to |tables|
      invariant formCount == ExtentOfKind(tables[..i], FormKind)
      invariant languageCount == ExtentOfKind(tables[..i], LanguageKind)
      invariant parameterCount == ExtentOfKind(tables[..i], ParameterKind)
    {
      var t := tables[i];
      var cc := t.conformsTo.GetOr("");
      LastOfKindStep(tables, FormKind, i);
      LastOfKindStep(tables, LanguageKind, i);
      LastOfKindStep(tables, ParameterKind, i);
      if Contains(cc, "FormTable") {
        formCount := t.extent.GetOr(0);
      } else if Contains(cc, "LanguageTable") {
        languageCount := t.extent.GetOr(0);
      } else if Contains(cc, "ParameterTable") {
        parameterCount := t.extent.GetOr(0);
      }
    }
    assert tables[..|tables|] == tables;
  }

  /** The loop over `prov:wasDerivedFrom` of `extract_metadata`
      (merge_cldf_datasets.py:375-377): every item titled `title`
      overwrites the version with its `dc:created`. */
  method LastCreated(items: seq<Provenance>, title: string) returns (v: Option<string>)
    ensures v == CreatedOf(items, title)
  {
    v := None;
    for i := 0 to |items|
      invariant v == CreatedOf(items[..i], title)
    {
      LastTitledStep(items, title, i);
      if items[i].title == Some(title) {
        v := items[i].created;
      }
    }
    assert items[..|items|] == items;
  }

  /** The loop over `prov:wasGeneratedBy` of `extract_metadata`
      (merge_cldf_datasets.py:379-381): every item titled `title`
      overwrites the version with its `dc:description`. */
  method LastDescription(items: seq<Provenance>, title: string) returns (v: Option<string>)
    ensures v == DescriptionOf(items, title)
  {
    v := None;
    for i := 0 to |items|
      invariant v == DescriptionOf(items[..i], title)
    {
      LastTitledStep(items, title, i);
      if items[i].title == Some(title) {
        v := items[i].description;
      }
    }
    assert items[..|items|] == items;
  }

  /** `extract_references` (merge_cldf_datasets.py:404-430): each
      catalogue version is the `dc:created` of the last
      `prov:wasDerivedFrom` item titled after that catalogue. */
  method ExtractReferences(m: MetadataJson, dataset: string) returns (r: References)
    ensures r.dataset == dataset
    ensures r.glottolog == CreatedOf(m.derivedFrom, "Glottolog")
    ensures r.concepticon == CreatedOf(m.derivedFrom, "Concepticon")
    ensures r.clts == CreatedOf(m.derivedFrom, "CLTS")
  {
    var glottolog, concepticon, clts: Option<string> := None, None, None;
    for i := 0 to |m.derivedFrom|
      invariant glottolog == CreatedOf(m.derivedFrom[..i], "Glottolog")
      invariant concepticon == CreatedOf(m.derivedFrom[..i], "Concepticon")
      invariant clts == CreatedOf(m.derivedFrom[..i], "CLTS")
    {
      var item := m.derivedFrom[i];
      LastTitledStep(m.derivedFrom, "Glottolog", i);
      LastTitledStep(m.derivedFrom, "Concepticon", i);
      LastTitledStep(m.derivedFrom, "CLTS", i);
      var title := item.title.GetOr("");
      if title == "Glottolog" {
        glottolog := item.created;
      } else if title == "Concepticon" {
        concepticon := item.created;
      } else if title == "CLTS" {
        clts := item.created;
      }
    }
    assert m.derivedFrom[..|m.derivedFrom|] == m.derivedFrom;
    r := References(dataset, glottolog, concepticon, clts);
  }

  /** Last match wins: appending an item titled `title` makes its
      `dc:created` the reported version, whatever came before; appending
      any other item changes nothing. */
  lemma CreatedOfAppend(items: seq<Provenance>, p: Provenance, title: string)
    ensures p.title == Some(title) ==> CreatedOf(items + [p], title) == p.created
    ensures p.title != Some(title) ==> CreatedOf(items + [p], title) == CreatedOf(items, title)
  {
    assert (items + [p])[..|items|] == items;
  }

  /** Last match wins for tables too: a later table of the same kind
      overrides the extent of an earlier one. */
  lemma ExtentOfKindAppend(tables: seq<TableDescriptor>, t: TableDescriptor, k: TableKind)
    ensures KindOf(t) == k ==> ExtentOfKind(tables + [t], k) == t.extent.GetOr(0)
    ensures KindOf(t) != k ==> ExtentOfKind(tables + [t], k) == ExtentOfKind(tables, k)
  {
    assert (tables + [t])[..|tables|] == tables;
  }

  /** A table is counted under at most one kind: one whose `dc:conformsTo`
      names both `FormTable` and `LanguageTable` counts as a form table. */
  lemma FormTableFirst(t: TableDescriptor)
    requires Contains(t.conformsTo.GetOr(""), "FormTable")
    ensures ExtentOfKind([t], FormKind) == t.extent.GetOr(0)
    ensures ExtentOfKind([t], LanguageKind) == 0 && ExtentOfKind([t], ParameterKind) == 0
  {
  }
}
