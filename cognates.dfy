/** Cognacy of a dataset's forms (merge_cldf_datasets.py:570-660): the
    inline `Cognacy` column of the forms file, namespaced, combined with the
    cognate sets the judgements file assigns to each form, aggregated per
    form, plus the first recorded value of each optional judgement column. */
module Cognates {
  import opened Wrappers
  import opened Text
  import opened Tables
  import opened Namespace

  // ---------------------------------------------------------------------
  // Combining the two sources of cognacy
  // ---------------------------------------------------------------------

  /** `combine_cognacy` (merge_cldf_datasets.py:651-660): the present
      values, inline first, joined by `;`; NA when neither is present. */
  function CombineCognacy(inline: Cell, judged: Cell): (r: Cell)
    ensures r == Null <==> inline == Null && judged == Null
  {
    var parts := (if inline != Null then [Str(inline)] else []) + (if judged != Null then [Str(judged)] else []);
    if parts == [] then Null else Text(Join(";", parts))
  }

  /** The four cases of `combine_cognacy`. */
  lemma CombineCognacyCases(inline: Cell, judged: Cell)
    ensures inline == Null && judged == Null ==> CombineCognacy(inline, judged) == Null
    ensures inline != Null && judged == Null ==> CombineCognacy(inline, judged) == Text(Str(inline))
    ensures inline == Null && judged != Null ==> CombineCognacy(inline, judged) == Text(Str(judged))
    ensures inline != Null && judged != Null ==>
      CombineCognacy(inline, judged) == Text(Str(inline) + ";" + Str(judged))
  {
    if inline != Null && judged != Null {
      assert Join(";", [Str(inline), Str(judged)]) == Str(inline) + ";" + Join(";", [Str(judged)]);
    }
  }

  /** Splitting a combined value on `;` lists the inline cognate sets and
      then the judged ones; nothing is lost or reordered. */
  lemma CombineCognacySplit(inline: Cell, judged: Cell)
    requires inline != Null || judged != Null
    ensures var r := CombineCognacy(inline, judged).s;
      Split(r, ';') == (if inline != Null then Split(Str(inline), ';') else [])
                       + (if judged != Null then Split(Str(judged), ';') else [])
  {
    CombineCognacyCases(inline, judged);
    if inline != Null && judged != Null {
      SplitConcat(Str(inline), Str(judged), ';');
      assert Str(inline) + ";" + Str(judged) == Str(inline) + [';'] + Str(judged);
    }
  }

  // ---------------------------------------------------------------------
  // Aggregations
  // ---------------------------------------------------------------------

  /** The column `c` of some rows. */
  function Values(rows: seq<Row>, c: string): (vals: seq<Cell>)
    ensures |vals| == |rows| && forall k :: 0 <= k < |rows| ==> vals[k] == Get(rows[k], c)
  {
    seq(|rows|, k requires 0 <= k < |rows| => Get(rows[k], c))
  }

  /** `x.dropna()` rendered as strings. */
  function NonNullTexts(vals: seq<Cell>): (r: seq<string>)
    ensures |r| <= |vals|
    ensures r == [] <==> forall k :: 0 <= k < |vals| ==> vals[k] == Null
  {
    if vals == [] then []
    else
      var rest := NonNullTexts(vals[1..]);
      assert forall k :: 1 <= k < |vals| ==> vals[k] == vals[1..][k - 1];
      (if vals[0] != Null then [Str(vals[0])] else []) + rest
  }

  /** `';'.join(x.dropna())`: the empty string, not NA, when every value
      is NA. */
  function JoinNonNull(vals: seq<Cell>): string {
    Join(";", NonNullTexts(vals))
  }

  lemma {:induction false} NonNullTextsAvoid(vals: seq<Cell>, c: char)
    requires forall k :: 0 <= k < |vals| && vals[k] != Null ==> c !in Str(vals[k])
    ensures forall k :: 0 <= k < |NonNullTexts(vals)| ==> c !in NonNullTexts(vals)[k]
  {
    if vals != [] {
      NonNullTextsAvoid(vals[1..], c);
    }
  }

  /** The judged cognate sets of a form can be read back by splitting on
      `;`, in judgement order; a form whose judgements all lack a set gets
      the empty string. */
  lemma JoinNonNullSplit(vals: seq<Cell>)
    requires forall k :: 0 <= k < |vals| && vals[k] != Null ==> ';' !in Str(vals[k])
    ensures NonNullTexts(vals) == [] ==> JoinNonNull(vals) == ""
    ensures NonNullTexts(vals) != [] ==> Split(JoinNonNull(vals), ';') == NonNullTexts(vals)
  {
    NonNullTextsAvoid(vals, ';');
    if NonNullTexts(vals) != [] {
      SplitJoin(NonNullTexts(vals), ';');
    }
  }

  /** GroupBy `'first'`: the first value that is not NA, NA if there is
      none. */
  function FirstNonNull(vals: seq<Cell>): (r: Cell)
    ensures r == Null <==> forall k :: 0 <= k < |vals| ==> vals[k] == Null
  {
    if vals == [] then Null
    else if vals[0] != Null then vals[0]
    else
      assert forall k :: 1 <= k < |vals| ==> vals[k] == vals[1..][k - 1];
      FirstNonNull(vals[1..])
  }

  /** `'first'` picks the earliest non-NA value: every value before it is
      NA. */
  lemma {:induction false} FirstNonNullIsFirst(vals: seq<Cell>)
    requires FirstNonNull(vals) != Null
    ensures exists k :: 0 <= k < |vals| && vals[k] == FirstNonNull(vals) && forall j :: 0 <= j < k ==> vals[j] == Null
  {
    if vals[0] == Null {
      FirstNonNullIsFirst(vals[1..]);
      var k :| 0 <= k < |vals[1..]| && vals[1..][k] == FirstNonNull(vals[1..]) && forall j :: 0 <= j < k ==> vals[1..][j] == Null;
      assert vals[k + 1] == FirstNonNull(vals);
      assert forall j :: 0 <= j < k + 1 ==> vals[j] == Null by {
        forall j | 0 <= j < k + 1 ensures vals[j] == Null {
          if j > 0 { assert vals[j] == vals[1..][j - 1]; }
        }
      }
    } else {
      assert vals[0] == FirstNonNull(vals);
    }
  }

  // ---------------------------------------------------------------------
  // The per-form aggregate of the judgements
  // ---------------------------------------------------------------------

  /** The aggregate names a judgement column: `Source` becomes
      `Cognate_Source`. */
  function Original(c: string): string {
    if c == "Cognate_Source" then "Source" else c
  }

  /** The names the aggregate can hold: the key, the joined cognate sets,
      then the optional judgement columns in the order `agg_dict` lists
      them, `Source` renamed. */
  const AggregateNames: seq<string> := ["ID", "Cognateset_ID_from_cognates"] + OptionalNames

  const OptionalNames: seq<string> := ["Alignment", "Doubt", "Cognate_Detection_Method", "Cognate_Source",
    "Morpheme_Index", "Segment_Slice"]

  /** No optional judgement column is named like the key, the joined sets
      or the cognacy column. */
  lemma OptionalNamesApart(c: string)
    requires c in OptionalNames
    ensures c != "ID" && c != "Cognateset_ID_from_cognates" && c != "Cognacy"
  {
    assert |c| in {9, 5, 24, 14, 13};
  }

  /** The optional judgement columns the judgements have, renamed. */
  function FirstColumns(cols: seq<string>): (r: seq<string>)
    ensures forall c :: c in r <==> c in OptionalNames && Original(c) in cols
  {
    Keep(OptionalNames, cols)
  }

  function Keep(names: seq<string>, cols: seq<string>): (r: seq<string>)
    ensures forall c :: c in r <==> c in names && Original(c) in cols
  {
    if names == [] then []
    else (if Original(names[0]) in cols then [names[0]] else []) + Keep(names[1..], cols)
  }

  lemma {:induction false} KeepDistinct(names: seq<string>, cols: seq<string>)
    requires DistinctNames(names)
    ensures DistinctNames(Keep(names, cols))
  {
    if names != [] {
      assert DistinctNames(names[1..]) by {
        forall i, j | 0 <= i < j < |names[1..]| ensures names[1..][i] != names[1..][j] {
          assert names[1..][i] == names[i + 1] && names[1..][j] == names[j + 1];
        }
      }
      KeepDistinct(names[1..], cols);
      var rest := Keep(names[1..], cols);
      assert names[0] !in names[1..] by {
        forall j | 0 <= j < |names[1..]| ensures names[1..][j] != names[0] {
          assert names[1..][j] == names[j + 1];
        }
      }
      assert names[0] !in rest;
    }
  }

  /** The columns of the aggregate after `reset_index` and the renaming. */
  function AggregateColumns(cols: seq<string>): seq<string> {
    ["ID", "Cognateset_ID_from_cognates"] + FirstColumns(cols)
  }

  lemma AggregateNamesDistinct()
    ensures DistinctNames(AggregateNames)
  {
    assert "Cognate_Source"[0] != "Morpheme_Index"[0];
  }

  lemma AggregateNamesUndropped()
    ensures forall c :: c in AggregateNames ==> !EndsWith(c, "_drop")
  {
    forall c | c in AggregateNames ensures !EndsWith(c, "_drop") {
      NotEndsWith(c, "_drop");
    }
  }

  /** The aggregate's columns are distinct known names, and none of them
      ends with the merge suffix. */
  lemma AggregateColumnsShape(cols: seq<string>)
    ensures var a := AggregateColumns(cols);
      && DistinctNames(a)
      && (forall c :: c in a ==> c in AggregateNames && !EndsWith(c, "_drop"))
  {
    AggregateNamesDistinct();
    AggregateNamesUndropped();
    var tail := OptionalNames;
    assert DistinctNames(tail) by {
      forall i, j | 0 <= i < j < |tail| ensures tail[i] != tail[j] {
        assert tail[i] == AggregateNames[i + 2] && tail[j] == AggregateNames[j + 2];
      }
    }
    KeepDistinct(tail, cols);
    var f := FirstColumns(cols);
    assert "ID" !in tail && "Cognateset_ID_from_cognates" !in tail;
    var a := AggregateColumns(cols);
    forall i, j | 0 <= i < j < |a| ensures a[i] != a[j] {
      if j >= 2 {
        assert a[j] == f[j - 2];
        if i >= 2 { assert a[i] == f[i - 2]; }
      }
    }
  }

  /** The form identifiers the judgements mention. */
  function KeySet(cognates: Table): set<string> {
    set v | v in NonNullValues(cognates, "Form_ID") && v.Text? :: v.s
  }

  /** The same identifiers in sorted order: the groups of
      `groupby('Form_ID')`, NA keys dropped. */
  function FormKeys(cognates: Table): (keys: seq<string>)
    ensures forall s :: s in keys <==> Text(s) in NonNullValues(cognates, "Form_ID")
  {
    Ordered(KeySet(cognates))
  }

  /** The judgements of one form, in file order. */
  function Group(cognates: Table, key: Cell): seq<Row> {
    Matches(cognates.rows, "Form_ID", key)
  }

  /** The aggregate row of one form. */
  function AggregateRow(cognates: Table, key: string): (r: Row)
  {
    var group := Group(cognates, Text(key));
    map c | c in AggregateColumns(cognates.columns) ::
      if c == "ID" then Text(key)
      else if c == "Cognateset_ID_from_cognates" then Text(JoinNonNull(Values(group, "Cognateset_ID")))
      else FirstNonNull(Values(group, Original(c)))
  }

  /** `cognates.groupby('Form_ID').agg(agg_dict).reset_index()` renamed
      (merge_cldf_datasets.py:597-623); pandas raises KeyError when the
      grouping or the aggregated column is missing. */
  function Aggregate(cognates: Table): (r: Result<Table>)
    ensures r.Err? <==> "Form_ID" !in cognates.columns || "Cognateset_ID" !in cognates.columns
    ensures r.Ok? ==> r.value.columns == AggregateColumns(cognates.columns)
  {
    if "Form_ID" !in cognates.columns then Err("KeyError: Form_ID")
    else if "Cognateset_ID" !in cognates.columns then Err("KeyError: Cognateset_ID")
    else
      var keys := FormKeys(cognates);
      Ok(Table(AggregateColumns(cognates.columns),
               seq(|keys|, j requires 0 <= j < |keys| => AggregateRow(cognates, keys[j]))))
  }

  /** What the aggregate holds for a form identifier: NA when no
      judgement names the form. */
  function Judged(cognates: Table, key: Cell): (r: Cell)
    ensures r != Null ==> r.Text?
  {
    if key.Text? && key in NonNullValues(cognates, "Form_ID") then
      Text(JoinNonNull(Values(Group(cognates, key), "Cognateset_ID")))
    else Null
  }

  function FirstJudged(cognates: Table, key: Cell, c: string): Cell {
    if key.Text? && key in NonNullValues(cognates, "Form_ID") then
      FirstNonNull(Values(Group(cognates, key), c))
    else Null
  }

  /** Reading a column of an aggregate row. */
  lemma AggregateRowGet(cognates: Table, key: string, c: string)
    ensures var group := Group(cognates, Text(key));
      Get(AggregateRow(cognates, key), c) ==
        if c !in AggregateColumns(cognates.columns) then Null
        else if c == "ID" then Text(key)
        else if c == "Cognateset_ID_from_cognates" then Text(JoinNonNull(Values(group, "Cognateset_ID")))
        else FirstNonNull(Values(group, Original(c)))
  {
  }

  /** The aggregate has one row per form the judgements mention, so its
      identifiers are unique. */
  lemma AggregateUnique(cognates: Table)
    requires Aggregate(cognates).Ok?
    ensures var agg := Aggregate(cognates).value;
      && |agg.rows| == |FormKeys(cognates)|
      && (forall j :: 0 <= j < |agg.rows| ==> agg.rows[j] == AggregateRow(cognates, FormKeys(cognates)[j]))
      && (forall j :: 0 <= j < |agg.rows| ==> Get(agg.rows[j], "ID") == Text(FormKeys(cognates)[j]))
      && UniqueKeys(agg.rows, "ID")
  {
    AggregateIds(cognates);
    var agg := Aggregate(cognates).value;
    forall i, j | 0 <= i < j < |agg.rows| ensures Get(agg.rows[i], "ID") != Get(agg.rows[j], "ID") {
      OrderedDistinct(KeySet(cognates), i, j);
    }
  }

  /** The aggregate has one row per form identifier, in sorted order. */
  lemma AggregateRows(cognates: Table)
    requires Aggregate(cognates).Ok?
    ensures var agg := Aggregate(cognates).value;
      && |agg.rows| == |FormKeys(cognates)|
      && forall j :: 0 <= j < |agg.rows| ==> agg.rows[j] == AggregateRow(cognates, FormKeys(cognates)[j])
  {
  }

  /** The `ID` of each aggregate row is its form identifier. */
  lemma AggregateIds(cognates: Table)
    requires Aggregate(cognates).Ok?
    ensures var agg := Aggregate(cognates).value;
      && |agg.rows| == |FormKeys(cognates)|
      && (forall j :: 0 <= j < |agg.rows| ==> agg.rows[j] == AggregateRow(cognates, FormKeys(cognates)[j]))
      && forall j :: 0 <= j < |agg.rows| ==> Get(agg.rows[j], "ID") == Text(FormKeys(cognates)[j])
  {
    AggregateRows(cognates);
    var agg := Aggregate(cognates).value;
    forall j | 0 <= j < |agg.rows| ensures Get(agg.rows[j], "ID") == Text(FormKeys(cognates)[j]) {
      AggregateRowGet(cognates, FormKeys(cognates)[j], "ID");
    }
  }

  /** The row the merge finds for a form is the aggregate of that form's
      judgements, and there is one exactly when a judgement names it. */
  lemma AggregatePartner(cognates: Table, key: Cell)
    requires Aggregate(cognates).Ok?
    ensures var agg := Aggregate(cognates).value;
      && UniqueKeys(agg.rows, "ID")
      && var p := Partner(agg.rows, "ID", key);
         && (p.Some? <==> key.Text? && key in NonNullValues(cognates, "Form_ID"))
         && (p.Some? ==> p.value == AggregateRow(cognates, key.s))
  {
    var agg := Aggregate(cognates).value;
    var keys := FormKeys(cognates);
    AggregateUnique(cognates);
    var found := FindKey(agg.rows, "ID", key);
    if key.Text? && key in NonNullValues(cognates, "Form_ID") {
      assert key.s in keys;
      var j :| 0 <= j < |keys| && keys[j] == key.s;
      assert Get(agg.rows[j], "ID") == key;
      assert found.Some?;
    }
    if found.Some? {
      var j := found.value;
      assert key == Text(keys[j]);
      assert keys[j] in keys;
      assert Partner(agg.rows, "ID", key) == Some(AggregateRow(cognates, keys[j]));
    }
  }

  // ---------------------------------------------------------------------
  // The merge onto the forms
  // ---------------------------------------------------------------------

  /** `[c for c in cols if not c.endswith('_drop')]`. */
  function Undropped(cols: seq<string>): (r: seq<string>)
    ensures forall c :: c in r <==> c in cols && !EndsWith(c, "_drop")
  {
    if cols == [] then []
    else (if EndsWith(cols[0], "_drop") then [] else [cols[0]]) + Undropped(cols[1..])
  }

  /** The namespaced inline cognacy of the forms, when they have the column. */
  function InlineCognacy(forms: Table, dataset: string): Option<seq<Cell>> {
    if "Cognacy" in forms.columns then Some(PrefixIds(Column(forms, "Cognacy"), dataset)) else None
  }

  /** The forms merged with the aggregate, `_drop` columns removed
      (merge_cldf_datasets.py:626-629). */
  function Kept(forms: Table, agg: Table): (kept: Table)
    requires "ID" in forms.columns && "ID" in agg.columns
    ensures |kept.rows| >= |forms.rows|
  {
    var merged := LeftMerge(forms, agg, "ID", "ID", "_drop");
    Select(merged, Undropped(merged.columns))
  }

  /** `merge_cognate_data` (merge_cldf_datasets.py:570-648). With
      judgements, a forms table that has a `Cognacy` column but no rows
      fails: `DataFrame.apply(axis=1)` on an empty frame returns the
      (empty) frame itself, and assigning a frame of several columns to the
      single column `Cognacy` raises ValueError. */
  function MergeCognateData(forms: Table, cognates: Option<Table>, dataset: string): (r: Result<Table>)
    ensures cognates.None? ==> r.Ok? && |r.value.rows| == |forms.rows|
    ensures cognates.Some? && "Cognacy" in forms.columns && |forms.rows| == 0 ==> r.Err?
    ensures r.Ok? ==> |r.value.rows| >= |forms.rows|
  {
    var inline := InlineCognacy(forms, dataset);
    if cognates.None? then
      Ok(if inline.Some? then SetColumn(forms, "Cognacy", inline.value) else forms)
    else
      var agg :- Aggregate(cognates.value);
      if "ID" !in forms.columns then Err("KeyError: ID")
      else if inline.Some? && |forms.rows| == 0 then
        Err("ValueError: Cannot set a DataFrame with multiple columns to the single column Cognacy")
      else
        var kept := Kept(forms, agg);
        var judged := Column(kept, "Cognateset_ID_from_cognates");
        var cognacy := if inline.Some? then
            seq(|kept.rows|, i requires 0 <= i < |kept.rows| =>
              CombineCognacy(if i < |inline.value| then inline.value[i] else Null, judged[i]))
          else judged;
        Ok(DropColumn(SetColumn(kept, "Cognacy", cognacy), "Cognateset_ID_from_cognates"))
  }

  /** The facts every reading of the merged frame rests on: unique
      aggregate identifiers and distinct appended names. */
  lemma MergeSetup(forms: Table, cognates: Table)
    requires Aggregate(cognates).Ok?
    ensures var agg := Aggregate(cognates).value;
      && UniqueKeys(agg.rows, "ID")
      && DistinctNames(Names(Appended(forms.columns, agg.columns, "ID", "ID", "_drop")))
      && forall c :: c in agg.columns ==> c in AggregateNames && !EndsWith(c, "_drop")
  {
    var agg := Aggregate(cognates).value;
    AggregateColumnsShape(cognates.columns);
    AggregateUnique(cognates);
    AppendedDistinct(forms.columns, agg.columns, "ID", "ID", "_drop");
  }

  /** A right column the forms lack keeps its name through the merge and
      survives the removal of `_drop` columns. */
  lemma KeptAppended(forms: Table, cognates: Table, i: nat, c: string)
    requires "ID" in forms.columns && Aggregate(cognates).Ok? && i < |forms.rows|
    requires c in Aggregate(cognates).value.columns && c != "ID" && c !in forms.columns
    ensures var agg := Aggregate(cognates).value;
      var kept := Kept(forms, agg);
      var p := Partner(agg.rows, "ID", Get(forms.rows[i], "ID"));
      && |kept.rows| == |forms.rows|
      && Get(kept.rows[i], c) == if p.Some? then Get(p.value, c) else Null
  {
    MergeSetup(forms, cognates);
    KeptAppendedCell(forms, Aggregate(cognates).value, i, c);
  }

  /** `KeptAppended` for any right frame with unique keys and distinct
      appended names. */
  lemma KeptAppendedCell(forms: Table, agg: Table, i: nat, c: string)
    requires "ID" in forms.columns && "ID" in agg.columns && i < |forms.rows|
    requires UniqueKeys(agg.rows, "ID") && DistinctNames(Names(Appended(forms.columns, agg.columns, "ID", "ID", "_drop")))
    requires c in agg.columns && c != "ID" && c !in forms.columns && !EndsWith(c, "_drop")
    ensures var kept := Kept(forms, agg);
      var p := Partner(agg.rows, "ID", Get(forms.rows[i], "ID"));
      && |kept.rows| == |forms.rows|
      && Get(kept.rows[i], c) == if p.Some? then Get(p.value, c) else Null
  {
    var j := AppendedOwnIndex(forms.columns, agg.columns, "ID", "ID", "_drop", c);
    LeftMergeUnique(forms, agg, "ID", "ID", "_drop", i, c);
  }

  /** A column of the forms that does not end with `_drop` is untouched by
      the merge. */
  lemma KeptOwn(forms: Table, cognates: Table, i: nat, c: string)
    requires "ID" in forms.columns && Aggregate(cognates).Ok? && i < |forms.rows|
    requires c in forms.columns && !EndsWith(c, "_drop")
    ensures var kept := Kept(forms, Aggregate(cognates).value);
      |kept.rows| == |forms.rows| && c in kept.columns && Get(kept.rows[i], c) == Get(forms.rows[i], c)
  {
    MergeSetup(forms, cognates);
    KeptOwnCell(forms, Aggregate(cognates).value, i, c);
  }

  /** `KeptOwn` for any right frame with unique keys and distinct appended
      names. */
  lemma KeptOwnCell(forms: Table, agg: Table, i: nat, c: string)
    requires "ID" in forms.columns && "ID" in agg.columns && i < |forms.rows|
    requires UniqueKeys(agg.rows, "ID") && DistinctNames(Names(Appended(forms.columns, agg.columns, "ID", "ID", "_drop")))
    requires c in forms.columns && !EndsWith(c, "_drop")
    ensures var kept := Kept(forms, agg);
      |kept.rows| == |forms.rows| && c in kept.columns && Get(kept.rows[i], c) == Get(forms.rows[i], c)
  {
    AppendedAvoidsOwn(forms.columns, agg.columns, "ID", "ID", "_drop", c);
    LeftMergeUnique(forms, agg, "ID", "ID", "_drop", i, c);
  }

  /** The merged frame with judgements, spelled out. */
  lemma MergeUnfold(forms: Table, cog: Table, dataset: string)
    requires MergeCognateData(forms, Some(cog), dataset).Ok?
    ensures "ID" in forms.columns && Aggregate(cog).Ok?
    ensures var kept := Kept(forms, Aggregate(cog).value);
      var cj := "Cognateset_ID_from_cognates";
      var inline := InlineCognacy(forms, dataset);
      var judged := Column(kept, cj);
      var cognacy := if inline.Some? then
          seq(|kept.rows|, k requires 0 <= k < |kept.rows| =>
            CombineCognacy(if k < |inline.value| then inline.value[k] else Null, judged[k]))
        else judged;
      MergeCognateData(forms, Some(cog), dataset).value == DropColumn(SetColumn(kept, "Cognacy", cognacy), cj)
  {
  }

  /** With judgements, a form's cognacy is its own cognate set, namespaced,
      followed by the judged sets. */
  lemma MergeJudgedCognacy(forms: Table, cog: Table, dataset: string, i: nat)
    requires WellFormed(forms) && i < |forms.rows|
    requires "Cognateset_ID_from_cognates" !in forms.columns
    requires MergeCognateData(forms, Some(cog), dataset).Ok?
    ensures var r := MergeCognateData(forms, Some(cog), dataset).value;
      && |r.rows| == |forms.rows|
      && Get(r.rows[i], "Cognacy") == CombineCognacy(PrefixId(Get(forms.rows[i], "Cognacy"), dataset), Judged(cog, Get(forms.rows[i], "ID")))
  {
    MergeUnfold(forms, cog, dataset);
    var agg := Aggregate(cog).value;
    var key := Get(forms.rows[i], "ID");
    AggregatePartner(cog, key);
    var p := Partner(agg.rows, "ID", key);
    var cj := "Cognateset_ID_from_cognates";
    KeptAppended(forms, cog, i, cj);
    var kept := Kept(forms, agg);
    if p.Some? {
      AggregateRowGet(cog, key.s, cj);
    }
    var judged := Column(kept, cj);
    assert judged[i] == Judged(cog, key);
    var inline := InlineCognacy(forms, dataset);
    var inlineCell := PrefixId(Get(forms.rows[i], "Cognacy"), dataset);
    if inline.None? {
      assert inlineCell == Null;
      CombineCognacyCases(inlineCell, judged[i]);
    }
  }

  /** With judgements, the form's own columns keep their values. */
  lemma MergeOwnColumn(forms: Table, cog: Table, dataset: string, i: nat, c: string)
    requires i < |forms.rows|
    requires "Cognateset_ID_from_cognates" !in forms.columns
    requires MergeCognateData(forms, Some(cog), dataset).Ok?
    requires c in forms.columns && c != "Cognacy" && !EndsWith(c, "_drop")
    ensures var r := MergeCognateData(forms, Some(cog), dataset).value;
      |r.rows| == |forms.rows| && c in r.columns && Get(r.rows[i], c) == Get(forms.rows[i], c)
  {
    MergeUnfold(forms, cog, dataset);
    KeptOwn(forms, cog, i, c);
    assert c != "Cognateset_ID_from_cognates";
  }

  /** With judgements, an optional judgement column the form lacks holds
      the first value recorded for the form. */
  lemma MergeFirstColumn(forms: Table, cog: Table, dataset: string, i: nat, c: string)
    requires i < |forms.rows|
    requires MergeCognateData(forms, Some(cog), dataset).Ok?
    requires c in FirstColumns(cog.columns) && c !in forms.columns
    ensures var r := MergeCognateData(forms, Some(cog), dataset).value;
      |r.rows| == |forms.rows| && Get(r.rows[i], c) == FirstJudged(cog, Get(forms.rows[i], "ID"), Original(c))
  {
    MergeUnfold(forms, cog, dataset);
    var agg := Aggregate(cog).value;
    var key := Get(forms.rows[i], "ID");
    OptionalNamesApart(c);
    assert c in agg.columns;
    KeptAppended(forms, cog, i, c);
    var kept := Kept(forms, agg);
    var r := MergeCognateData(forms, Some(cog), dataset).value;
    assert Get(r.rows[i], c) == Get(kept.rows[i], c);
    AggregatePartner(cog, key);
    var p := Partner(agg.rows, "ID", key);
    if p.Some? {
      AggregateRowGet(cog, key.s, c);
      assert Get(kept.rows[i], c) == Get(AggregateRow(cog, key.s), c);
    }
  }

  /** What `merge_cognate_data` does to each form: the form keeps its
      place and every column of its own (except the `_drop` ones); its
      `Cognacy` is its own cognate set, namespaced, followed by the sets
      its judgements assign; each optional judgement column the form lacks
      holds the first value recorded for it. Missing key columns raise
      (and so, for a forms table without rows, does a `Cognacy` column:
      see `MergeCognateDataEmpty`). */
  lemma MergeCognateDataCells(forms: Table, cognates: Option<Table>, dataset: string, i: nat, c: string)
    requires WellFormed(forms) && i < |forms.rows|
    requires "Cognateset_ID_from_cognates" !in forms.columns
    ensures var r := MergeCognateData(forms, cognates, dataset);
      r.Err? <==> cognates.Some? && (Aggregate(cognates.value).Err? || "ID" !in forms.columns)
    ensures var r := MergeCognateData(forms, cognates, dataset);
      r.Ok? ==>
        var judged := if cognates.Some? then Judged(cognates.value, Get(forms.rows[i], "ID")) else Null;
        && |r.value.rows| == |forms.rows|
        && Get(r.value.rows[i], "Cognacy") == CombineCognacy(PrefixId(Get(forms.rows[i], "Cognacy"), dataset), judged)
        && (c in forms.columns && c != "Cognacy" && !EndsWith(c, "_drop") ==>
              c in r.value.columns && Get(r.value.rows[i], c) == Get(forms.rows[i], c))
        && (cognates.Some? && c in FirstColumns(cognates.value.columns) && c !in forms.columns ==>
              Get(r.value.rows[i], c) == FirstJudged(cognates.value, Get(forms.rows[i], "ID"), Original(c)))
  {
    if cognates.None? {
      CombineCognacyCases(PrefixId(Get(forms.rows[i], "Cognacy"), dataset), Null);
    } else if MergeCognateData(forms, cognates, dataset).Ok? {
      MergeJudgedCognacy(forms, cognates.value, dataset, i);
      if c in forms.columns && c != "Cognacy" && !EndsWith(c, "_drop") {
        MergeOwnColumn(forms, cognates.value, dataset, i, c);
      }
      if c in FirstColumns(cognates.value.columns) && c !in forms.columns {
        MergeFirstColumn(forms, cognates.value, dataset, i, c);
      }
    }
  }

  /** A forms table without rows: with judgements the merge fails exactly
      when the aggregation fails, the forms lack `ID`, or the forms have a
      `Cognacy` column; otherwise no row comes out. */
  lemma MergeCognateDataEmpty(forms: Table, cognates: Option<Table>, dataset: string)
    requires |forms.rows| == 0
    ensures var r := MergeCognateData(forms, cognates, dataset);
      r.Err? <==> cognates.Some? && (Aggregate(cognates.value).Err? || "ID" !in forms.columns || "Cognacy" in forms.columns)
  {
  }
}
