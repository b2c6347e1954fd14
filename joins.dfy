/** Joining language and concept metadata onto the forms
    (merge_cldf_datasets.py:665-715): a left merge of the forms with a
    projection of the languages (or parameters) frame on the form's foreign
    key, after which the right frame's own `ID` column, which the merge
    suffixed because the forms have an `ID` too, is dropped. */
module Joins {
  import opened Wrappers
  import opened Text
  import opened Tables

  /** `forms.merge(right[['ID'] + present wanted], left_on=lk,
      right_on='ID', how='left', suffixes=('', suffix))`, then the suffixed
      right `ID` dropped. pandas raises KeyError when the right frame has
      no `ID` or the forms lack the foreign key. */
  function JoinMetadata(forms: Table, right: Table, lk: string, suffix: string, wanted: seq<string>)
    : (r: Result<Table>)
    ensures r.Ok? <==> "ID" in right.columns && lk in forms.columns
    ensures r.Ok? ==> |r.value.rows| >= |forms.rows|
  {
    if "ID" !in right.columns then Err("KeyError: ID")
    else if lk !in forms.columns then Err("KeyError: " + lk)
    else
      var selected := Select(right, SelectedColumns(right, wanted));
      Ok(DropColumn(LeftMerge(forms, selected, lk, "ID", suffix), "ID" + suffix))
  }

  /** `join_language_metadata` (merge_cldf_datasets.py:665-689). */
  function JoinLanguageMetadata(forms: Table, languages: Table): (r: Result<Table>)
    ensures r.Ok? <==> "ID" in languages.columns && "Language_ID" in forms.columns
    ensures r.Ok? ==> |r.value.rows| >= |forms.rows|
  {
    JoinMetadata(forms, languages, "Language_ID", "_lang", ["Glottocode", "Glottolog_Name"])
  }

  /** `join_parameter_metadata` (merge_cldf_datasets.py:692-715). */
  function JoinParameterMetadata(forms: Table, parameters: Table): (r: Result<Table>)
    ensures r.Ok? <==> "ID" in parameters.columns && "Parameter_ID" in forms.columns
    ensures r.Ok? ==> |r.value.rows| >= |forms.rows|
  {
    JoinMetadata(forms, parameters, "Parameter_ID", "_param", ["Concepticon_ID", "Concepticon_Gloss"])
  }

  /** The projected right frame keeps the right frame's keys. */
  lemma SelectedPartner(right: Table, cols: seq<string>, key: Cell, c: string)
    requires "ID" in cols && forall d :: d in cols ==> d in right.columns
    requires UniqueKeys(right.rows, "ID")
    ensures var sel := Select(right, cols);
      && UniqueKeys(sel.rows, "ID")
      && var p, q := Partner(sel.rows, "ID", key), Partner(right.rows, "ID", key);
         && p.Some? == q.Some?
         && (p.Some? && c in cols ==> Get(p.value, c) == Get(q.value, c))
  {
    var sel := Select(right, cols);
    FindKeySameKeys(sel.rows, right.rows, "ID", key);
  }

  /** What a metadata join does to each form, when the right keys are
      unique: the form keeps its place; each of its columns that does not
      end with the suffix keeps its value; each wanted column the right
      frame has and the forms lack holds the value of the row whose `ID`
      is the form's foreign key, or NA when there is none; the suffixed
      right `ID` is gone. */
  lemma JoinMetadataCells(forms: Table, right: Table, lk: string, suffix: string, wanted: seq<string>, i: nat, c: string)
    requires lk in forms.columns && "ID" in right.columns && UniqueKeys(right.rows, "ID") && i < |forms.rows|
    requires DistinctNames(wanted) && "ID" !in wanted
    requires !EndsWith("ID", suffix) && forall w :: w in wanted ==> !EndsWith(w, suffix)
    ensures JoinMetadata(forms, right, lk, suffix, wanted).Ok?
    ensures var r := JoinMetadata(forms, right, lk, suffix, wanted).value;
      var p := Partner(right.rows, "ID", Get(forms.rows[i], lk));
      && |r.rows| == |forms.rows|
      && "ID" + suffix !in r.columns
      && (c in forms.columns && !EndsWith(c, suffix) ==> c in r.columns && Get(r.rows[i], c) == Get(forms.rows[i], c))
      && (c in wanted && c in right.columns && c !in forms.columns ==>
            Get(r.rows[i], c) == if p.Some? then Get(p.value, c) else Null)
  {
    EndsWithAppended("ID", suffix);
    if c in forms.columns && !EndsWith(c, suffix) {
      SelectedMergeOwn(forms, right, lk, suffix, wanted, i, c);
    } else if c in wanted && c in right.columns && c !in forms.columns {
      SelectedMergeWanted(forms, right, lk, suffix, wanted, i, c);
    } else {
      SelectedAppendedDistinct(forms, right, lk, suffix, wanted);
      LeftMergeUnique(forms, Select(right, SelectedColumns(right, wanted)), lk, "ID", suffix, i, c);
    }
  }

  /** The projection of the right frame a metadata join merges: its `ID`
      and the wanted columns it has. */
  function SelectedColumns(right: Table, wanted: seq<string>): (cols: seq<string>)
    ensures forall d :: d in cols ==> d in right.columns || d == "ID"
    ensures forall w :: w in wanted && w in right.columns ==> w in cols
  {
    ["ID"] + Present(wanted, right.columns)
  }

  /** The merge's appended columns have distinct names. */
  lemma SelectedAppendedDistinct(forms: Table, right: Table, lk: string, suffix: string, wanted: seq<string>)
    requires DistinctNames(wanted) && "ID" !in wanted
    requires !EndsWith("ID", suffix) && forall w :: w in wanted ==> !EndsWith(w, suffix)
    ensures DistinctNames(Names(Appended(forms.columns, SelectedColumns(right, wanted), lk, "ID", suffix)))
  {
    DistinctCons("ID", Present(wanted, right.columns));
    AppendedDistinct(forms.columns, SelectedColumns(right, wanted), lk, "ID", suffix);
  }

  /** The merge inside a metadata join keeps every form's own columns
      that do not end with the suffix. */
  lemma SelectedMergeOwn(forms: Table, right: Table, lk: string, suffix: string, wanted: seq<string>, i: nat, c: string)
    requires lk in forms.columns && "ID" in right.columns && UniqueKeys(right.rows, "ID") && i < |forms.rows|
    requires DistinctNames(wanted) && "ID" !in wanted
    requires !EndsWith("ID", suffix) && forall w :: w in wanted ==> !EndsWith(w, suffix)
    requires c in forms.columns && !EndsWith(c, suffix)
    ensures var m := LeftMerge(forms, Select(right, SelectedColumns(right, wanted)), lk, "ID", suffix);
      |m.rows| == |forms.rows| && Get(m.rows[i], c) == Get(forms.rows[i], c)
  {
    var cols := SelectedColumns(right, wanted);
    SelectedAppendedDistinct(forms, right, lk, suffix, wanted);
    AppendedAvoidsOwn(forms.columns, cols, lk, "ID", suffix, c);
    LeftMergeUnique(forms, Select(right, cols), lk, "ID", suffix, i, c);
  }

  /** The merge inside a metadata join gives every form, in each wanted
      column the right frame has and the forms lack, its partner's value. */
  lemma SelectedMergeWanted(forms: Table, right: Table, lk: string, suffix: string, wanted: seq<string>, i: nat, c: string)
    requires lk in forms.columns && "ID" in right.columns && UniqueKeys(right.rows, "ID") && i < |forms.rows|
    requires DistinctNames(wanted) && "ID" !in wanted
    requires !EndsWith("ID", suffix) && forall w :: w in wanted ==> !EndsWith(w, suffix)
    requires c in wanted && c in right.columns && c !in forms.columns
    ensures var m := LeftMerge(forms, Select(right, SelectedColumns(right, wanted)), lk, "ID", suffix);
      var p := Partner(right.rows, "ID", Get(forms.rows[i], lk));
      |m.rows| == |forms.rows| && Get(m.rows[i], c) == if p.Some? then Get(p.value, c) else Null
  {
    var cols := SelectedColumns(right, wanted);
    var sel := Select(right, cols);
    SelectedAppendedDistinct(forms, right, lk, suffix, wanted);
    SelectedPartner(right, cols, Get(forms.rows[i], lk), c);
    var j := AppendedOwnIndex(forms.columns, cols, lk, "ID", suffix, c);
    LeftMergeUnique(forms, sel, lk, "ID", suffix, i, c);
  }

  /** The join keys and suffixes leave the wanted columns alone. */
  lemma LanguageJoinNames()
    ensures DistinctNames(["Glottocode", "Glottolog_Name"]) && "ID" !in ["Glottocode", "Glottolog_Name"]
    ensures !EndsWith("ID", "_lang") && forall w :: w in ["Glottocode", "Glottolog_Name"] ==> !EndsWith(w, "_lang")
    ensures "ID" + "_lang" == "ID_lang"
  {
    NotEndsWith("Glottocode", "_lang");
    NotEndsWith("Glottolog_Name", "_lang");
  }

  lemma ParameterJoinNames()
    ensures DistinctNames(["Concepticon_ID", "Concepticon_Gloss"]) && "ID" !in ["Concepticon_ID", "Concepticon_Gloss"]
    ensures !EndsWith("ID", "_param") && forall w :: w in ["Concepticon_ID", "Concepticon_Gloss"] ==> !EndsWith(w, "_param")
    ensures "ID" + "_param" == "ID_param"
  {
    NotEndsWith("Concepticon_ID", "_param");
    NotEndsWith("Concepticon_Gloss", "_param");
  }

  /** `join_language_metadata` on unique language identifiers: each form
      keeps its place and its own columns, and the right `ID` is gone. */
  lemma JoinLanguageMetadataKeeps(forms: Table, languages: Table, i: nat, c: string)
    requires "Language_ID" in forms.columns && "ID" in languages.columns
    requires UniqueKeys(languages.rows, "ID") && i < |forms.rows|
    ensures var r := JoinLanguageMetadata(forms, languages);
      && r.Ok? && |r.value.rows| == |forms.rows| && "ID_lang" !in r.value.columns
      && (c in forms.columns && !EndsWith(c, "_lang") ==> c in r.value.columns && Get(r.value.rows[i], c) == Get(forms.rows[i], c))
  {
    LanguageJoinNames();
    JoinMetadataCells(forms, languages, "Language_ID", "_lang", ["Glottocode", "Glottolog_Name"], i, c);
  }

  /** `join_language_metadata` on unique language identifiers: each form
      gets the `Glottocode` and `Glottolog_Name` of its language, NA when
      the language is unknown. */
  lemma JoinLanguageMetadataLooksUp(forms: Table, languages: Table, i: nat, c: string)
    requires "Language_ID" in forms.columns && "ID" in languages.columns
    requires UniqueKeys(languages.rows, "ID") && i < |forms.rows|
    requires c in ["Glottocode", "Glottolog_Name"] && c in languages.columns && c !in forms.columns
    ensures var r := JoinLanguageMetadata(forms, languages);
      var p := Partner(languages.rows, "ID", Get(forms.rows[i], "Language_ID"));
      r.Ok? && |r.value.rows| == |forms.rows| && Get(r.value.rows[i], c) == if p.Some? then Get(p.value, c) else Null
  {
    LanguageJoinNames();
    JoinMetadataCells(forms, languages, "Language_ID", "_lang", ["Glottocode", "Glottolog_Name"], i, c);
  }

  /** `join_parameter_metadata` on unique parameter identifiers: each form
      keeps its place and its own columns, and the right `ID` is gone. */
  lemma JoinParameterMetadataKeeps(forms: Table, parameters: Table, i: nat, c: string)
    requires "Parameter_ID" in forms.columns && "ID" in parameters.columns
    requires UniqueKeys(parameters.rows, "ID") && i < |forms.rows|
    ensures var r := JoinParameterMetadata(forms, parameters);
      && r.Ok? && |r.value.rows| == |forms.rows| && "ID_param" !in r.value.columns
      && (c in forms.columns && !EndsWith(c, "_param") ==> c in r.value.columns && Get(r.value.rows[i], c) == Get(forms.rows[i], c))
  {
    ParameterJoinNames();
    JoinMetadataCells(forms, parameters, "Parameter_ID", "_param", ["Concepticon_ID", "Concepticon_Gloss"], i, c);
  }

  /** `join_parameter_metadata` on unique parameter identifiers: each form
      gets the `Concepticon_ID` and `Concepticon_Gloss` of its concept. */
  lemma JoinParameterMetadataLooksUp(forms: Table, parameters: Table, i: nat, c: string)
    requires "Parameter_ID" in forms.columns && "ID" in parameters.columns
    requires UniqueKeys(parameters.rows, "ID") && i < |forms.rows|
    requires c in ["Concepticon_ID", "Concepticon_Gloss"] && c in parameters.columns && c !in forms.columns
    ensures var r := JoinParameterMetadata(forms, parameters);
      var p := Partner(parameters.rows, "ID", Get(forms.rows[i], "Parameter_ID"));
      r.Ok? && |r.value.rows| == |forms.rows| && Get(r.value.rows[i], c) == if p.Some? then Get(p.value, c) else Null
  {
    ParameterJoinNames();
    JoinMetadataCells(forms, parameters, "Parameter_ID", "_param", ["Concepticon_ID", "Concepticon_Gloss"], i, c);
  }
}
