/** Referential integrity of the merged corpus
    (`validate_referential_integrity`, merge_cldf_datasets.py:779-814):
    the foreign keys of the forms that name no language (or concept), and
    the forms left without a Glottocode (or Concepticon identifier). */
module Integrity {
  import opened Wrappers
  import opened Tables

  datatype IntegrityReport = IntegrityReport(
    orphanLanguageIds: nat,
    orphanParameterIds: nat,
    formsWithoutGlottocode: nat,
    formsWithoutConcepticonId: nat)

  /** `set(forms[fk].dropna()) - set(table['ID'].dropna())`: the distinct
      foreign keys of the forms that no row of `table` carries as its `ID`. */
  function Orphans(forms: Table, fk: string, table: Table): set<Cell> {
    NonNullValues(forms, fk) - NonNullValues(table, "ID")
  }

  /** Every non-null foreign key of the forms is the `ID` of some row. */
  ghost predicate Resolves(forms: Table, fk: string, table: Table) {
    forall k :: 0 <= k < |forms.rows| && Get(forms.rows[k], fk) != Null ==>
      exists j :: 0 <= j < |table.rows| && Get(table.rows[j], "ID") == Get(forms.rows[k], fk)
  }

  /** `validate_referential_integrity`; pandas raises KeyError when one of
      the columns it reads is missing. */
  function ValidateReferentialIntegrity(forms: Table, languages: Table, parameters: Table)
    : (r: Result<IntegrityReport>)
    ensures r.Ok? <==>
      && "ID" in languages.columns && "ID" in parameters.columns
      && "Language_ID" in forms.columns && "Parameter_ID" in forms.columns
      && "Glottocode" in forms.columns && "Concepticon_ID" in forms.columns
    ensures r.Ok? ==> r.value.formsWithoutGlottocode + NonNullCount(forms, "Glottocode") == |forms.rows|
    ensures r.Ok? ==> r.value.formsWithoutConcepticonId + NonNullCount(forms, "Concepticon_ID") == |forms.rows|
    ensures r.Ok? ==> r.value.orphanLanguageIds <= |NonNullValues(forms, "Language_ID")|
    ensures r.Ok? ==> r.value.orphanParameterIds <= |NonNullValues(forms, "Parameter_ID")|
  {
    if "ID" !in languages.columns || "ID" !in parameters.columns then Err("KeyError: ID")
    else if "Language_ID" !in forms.columns then Err("KeyError: Language_ID")
    else if "Parameter_ID" !in forms.columns then Err("KeyError: Parameter_ID")
    else if "Glottocode" !in forms.columns then Err("KeyError: Glottocode")
    else if "Concepticon_ID" !in forms.columns then Err("KeyError: Concepticon_ID")
    else
      var ol := Orphans(forms, "Language_ID", languages);
      var op := Orphans(forms, "Parameter_ID", parameters);
      assert ol <= NonNullValues(forms, "Language_ID");
      assert op <= NonNullValues(forms, "Parameter_ID");
      Ok(IntegrityReport(|ol|, |op|, NullCount(forms, "Glottocode"), NullCount(forms, "Concepticon_ID")))
  }

  /** A value is an orphan exactly when some form carries it as a non-null
      foreign key and no row of the table carries it as its `ID`. */
  lemma OrphanMembership(forms: Table, fk: string, table: Table, v: Cell)
    ensures v in Orphans(forms, fk, table) <==>
      && v != Null
      && (exists k :: 0 <= k < |forms.rows| && Get(forms.rows[k], fk) == v)
      && (forall j :: 0 <= j < |table.rows| ==> Get(table.rows[j], "ID") != v)
  {
  }

  /** No orphans is referential integrity: the orphan count is zero
      exactly when every non-null foreign key of the forms resolves. */
  lemma NoOrphansIffResolves(forms: Table, fk: string, table: Table)
    ensures |Orphans(forms, fk, table)| == 0 <==> Resolves(forms, fk, table)
  {
    if |Orphans(forms, fk, table)| == 0 {
      forall k | 0 <= k < |forms.rows| && Get(forms.rows[k], fk) != Null
        ensures exists j :: 0 <= j < |table.rows| && Get(table.rows[j], "ID") == Get(forms.rows[k], fk)
      {
        var v := Get(forms.rows[k], fk);
        OrphanMembership(forms, fk, table, v);
      }
    } else {
      var v :| v in Orphans(forms, fk, table);
      OrphanMembership(forms, fk, table, v);
      var k :| 0 <= k < |forms.rows| && Get(forms.rows[k], fk) == v;
      assert !Resolves(forms, fk, table);
    }
  }

  /** The language orphan count of the report is zero exactly when every
      form's `Language_ID` names a language; likewise for concepts. */
  lemma ReportIntegrity(forms: Table, languages: Table, parameters: Table)
    requires ValidateReferentialIntegrity(forms, languages, parameters).Ok?
    ensures var r := ValidateReferentialIntegrity(forms, languages, parameters).value;
      && (r.orphanLanguageIds == 0 <==> Resolves(forms, "Language_ID", languages))
      && (r.orphanParameterIds == 0 <==> Resolves(forms, "Parameter_ID", parameters))
  {
    NoOrphansIffResolves(forms, "Language_ID", languages);
    NoOrphansIffResolves(forms, "Parameter_ID", parameters);
  }
}
