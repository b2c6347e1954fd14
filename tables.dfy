/** The fragment of pandas the merger uses, on values: a frame is a column
    list and a sequence of rows; a row maps column names to cells. Reading a
    column a row lacks gives NA, which is what a column added as NA holds. */
module Tables {
  import opened Wrappers
  import opened Text

  /** A pandas cell: NA, a string (every CSV column is read as `str`), or a
      boolean produced by mapping a `true`/`false` column. */
  datatype Cell = Null | Text(s: string) | Flag(b: bool)

  type Row = map<string, Cell>

  datatype Table = Table(columns: seq<string>, rows: seq<Row>)

  /** `row[c]`, NA where the row has no such column. */
  function Get(r: Row, c: string): Cell {
    if c in r then r[c] else Null
  }

  /** Python's `str(x)` for a non-null cell. */
  function Str(c: Cell): string
    requires !c.Null?
  {
    match c
    case Text(s) => s
    case Flag(b) => if b then "True" else "False"
  }

  predicate DistinctNames(cols: seq<string>) {
    forall i, j :: 0 <= i < j < |cols| ==> cols[i] != cols[j]
  }

  /** Every row holds exactly the frame's columns, each named once. */
  ghost predicate WellFormed(t: Table) {
    && DistinctNames(t.columns)
    && forall k :: 0 <= k < |t.rows| ==> forall c :: c in t.rows[k] <==> c in t.columns
  }

  /** `df[c]` as a sequence. */
  function Column(t: Table, c: string): (col: seq<Cell>)
    ensures |col| == |t.rows|
    ensures forall k :: 0 <= k < |t.rows| ==> col[k] == Get(t.rows[k], c)
  {
    seq(|t.rows|, k requires 0 <= k < |t.rows| => Get(t.rows[k], c))
  }

  /** `df[c] = values`: replaces the column in place, or appends it. */
  function SetColumn(t: Table, c: string, values: seq<Cell>): (r: Table)
    requires |values| == |t.rows|
    ensures |r.rows| == |t.rows|
    ensures r.columns == if c in t.columns then t.columns else t.columns + [c]
    ensures forall k :: 0 <= k < |r.rows| ==> Get(r.rows[k], c) == values[k]
    ensures forall k, d :: 0 <= k < |r.rows| && d != c ==> Get(r.rows[k], d) == Get(t.rows[k], d)
  {
    Table(if c in t.columns then t.columns else t.columns + [c],
          seq(|t.rows|, k requires 0 <= k < |t.rows| => t.rows[k][c := values[k]]))
  }

  lemma SetColumnWellFormed(t: Table, c: string, values: seq<Cell>)
    requires WellFormed(t) && |values| == |t.rows|
    ensures WellFormed(SetColumn(t, c, values))
  {
    var r := SetColumn(t, c, values);
    forall i, j | 0 <= i < j < |r.columns| ensures r.columns[i] != r.columns[j] {
      if c !in t.columns && j == |t.columns| { assert r.columns[i] in t.columns; }
    }
  }

  /** `df.drop(columns=[c])`, dropping nothing when `c` is absent. */
  function DropColumn(t: Table, c: string): (r: Table)
    ensures c !in r.columns && forall k :: 0 <= k < |r.rows| ==> c !in r.rows[k]
    ensures |r.rows| == |t.rows|
    ensures forall k, d :: 0 <= k < |r.rows| && d != c ==> Get(r.rows[k], d) == Get(t.rows[k], d)
    ensures forall d :: d in r.columns <==> d in t.columns && d != c
  {
    Table(Without(t.columns, c), seq(|t.rows|, k requires 0 <= k < |t.rows| => t.rows[k] - {c}))
  }

  function Without(cols: seq<string>, c: string): (r: seq<string>)
    ensures forall d :: d in r <==> d in cols && d != c
  {
    if cols == [] then []
    else (if cols[0] == c then [] else [cols[0]]) + Without(cols[1..], c)
  }

  /** `[c for c in names if c in cols]`. */
  function Present(names: seq<string>, cols: seq<string>): (r: seq<string>)
    ensures forall c :: c in r <==> c in names && c in cols
    ensures DistinctNames(names) ==> DistinctNames(r)
  {
    if names == [] then []
    else
      var rest := Present(names[1..], cols);
      assert DistinctNames(names) ==> names[0] !in names[1..] && DistinctNames(names[1..]) by {
        if DistinctNames(names) {
          forall j | 0 <= j < |names[1..]| ensures names[1..][j] != names[0] {
            assert names[1..][j] == names[j + 1];
          }
          forall i, j | 0 <= i < j < |names[1..]| ensures names[1..][i] != names[1..][j] {
            assert names[1..][i] == names[i + 1] && names[1..][j] == names[j + 1];
          }
        }
      }
      (if names[0] in cols then [names[0]] else []) + rest
  }

  /** `df[cols]`: a new frame of exactly these columns, in this order;
      pandas raises KeyError when one of them is missing. */
  function Select(t: Table, cols: seq<string>): (r: Table)
    requires forall c :: c in cols ==> c in t.columns
    ensures r.columns == cols && |r.rows| == |t.rows|
    ensures forall k :: 0 <= k < |r.rows| ==> forall c :: c in r.rows[k] <==> c in cols
    ensures forall k, c :: 0 <= k < |r.rows| && c in cols ==> Get(r.rows[k], c) == Get(t.rows[k], c)
  {
    Reindex(t, cols)
  }

  /** `df.reindex(columns=cols)`: the frame restricted and extended to
      `cols`, in that order; a column the frame lacks reads as NA. */
  function Reindex(t: Table, cols: seq<string>): (r: Table)
    ensures r.columns == cols
    ensures |r.rows| == |t.rows|
    ensures forall k :: 0 <= k < |r.rows| ==> forall c :: c in r.rows[k] <==> c in cols
    ensures forall k, c :: 0 <= k < |r.rows| && c in cols ==> Get(r.rows[k], c) == Get(t.rows[k], c)
  {
    Table(cols, seq(|t.rows|, k requires 0 <= k < |t.rows| => map c | c in cols :: Get(t.rows[k], c)))
  }

  /** `ensure_columns` (merge_cldf_datasets.py:129-142): adds every expected
      column the frame lacks as NA, in a loop, then selects the expected
      columns in the expected order. */
  method EnsureColumns(t: Table, expected: seq<string>) returns (r: Table)
    requires WellFormed(t)
    ensures r == Reindex(t, expected)
  {
    var df := t;
    for i := 0 to |expected|
      invariant WellFormed(df)
      invariant |df.rows| == |t.rows|
      invariant forall j :: 0 <= j < i ==> expected[j] in df.columns
      invariant forall k, c :: 0 <= k < |df.rows| ==> Get(df.rows[k], c) == Get(t.rows[k], c)
    {
      if expected[i] !in df.columns {
        var nulls := seq(|df.rows|, _ => Null);
        SetColumnWellFormed(df, expected[i], nulls);
        AddedColumnReadsSame(df, expected[i], t);
        df := SetColumn(df, expected[i], nulls);
      }
    }
    r := Select(df, expected);
    SameReadsSameReindex(df, t, expected);
  }

  /** Adding a column of NA to a well-formed frame changes no reading. */
  lemma AddedColumnReadsSame(df: Table, c: string, t: Table)
    requires WellFormed(df) && c !in df.columns && |df.rows| == |t.rows|
    requires forall k, d :: 0 <= k < |df.rows| ==> Get(df.rows[k], d) == Get(t.rows[k], d)
    ensures forall k, d :: 0 <= k < |df.rows| ==>
      Get(SetColumn(df, c, seq(|df.rows|, _ => Null)).rows[k], d) == Get(t.rows[k], d)
  {
    var r := SetColumn(df, c, seq(|df.rows|, _ => Null));
    forall k, d | 0 <= k < |df.rows| ensures Get(r.rows[k], d) == Get(t.rows[k], d) {
      if d == c {
        assert c !in df.rows[k];
      }
    }
  }

  /** Frames that read the same project to the same frame. */
  lemma SameReadsSameReindex(a: Table, b: Table, cols: seq<string>)
    requires |a.rows| == |b.rows|
    requires forall k, d :: 0 <= k < |a.rows| ==> Get(a.rows[k], d) == Get(b.rows[k], d)
    ensures Reindex(a, cols) == Reindex(b, cols)
  {
    var ra, rb := Reindex(a, cols), Reindex(b, cols);
    forall k | 0 <= k < |ra.rows| ensures ra.rows[k] == rb.rows[k] {
      assert ra.rows[k].Keys == rb.rows[k].Keys;
      forall d | d in ra.rows[k] ensures ra.rows[k][d] == rb.rows[k][d] {
        assert Get(ra.rows[k], d) == Get(rb.rows[k], d);
      }
    }
  }

  /** The three promises of schema projection: the declared columns in the
      declared order, unchanged values in columns the frame had, NA in the
      columns it lacked, and no row gained or lost. */
  lemma ReindexSchema(t: Table, cols: seq<string>, k: nat, c: string)
    requires WellFormed(t) && k < |t.rows| && c in cols
    ensures Reindex(t, cols).columns == cols
    ensures |Reindex(t, cols).rows| == |t.rows|
    ensures c in t.columns ==> Get(Reindex(t, cols).rows[k], c) == Get(t.rows[k], c)
    ensures c !in t.columns ==> Get(Reindex(t, cols).rows[k], c) == Null
  {
  }

  lemma ReindexWellFormed(t: Table, cols: seq<string>)
    requires DistinctNames(cols)
    ensures WellFormed(Reindex(t, cols))
  {
  }

  /** `df[c].replace('', pd.NA)` for every column outside `keep`. */
  function NullEmpty(t: Table, keep: set<string>): (r: Table)
    ensures r.columns == t.columns && |r.rows| == |t.rows|
    ensures forall k :: 0 <= k < |r.rows| ==> r.rows[k].Keys == t.rows[k].Keys
    ensures forall k, c :: 0 <= k < |r.rows| ==>
      Get(r.rows[k], c) == if c !in keep && Get(t.rows[k], c) == Text("") then Null else Get(t.rows[k], c)
  {
    Table(t.columns, seq(|t.rows|, k requires 0 <= k < |t.rows| =>
      map c | c in t.rows[k] :: if c !in keep && t.rows[k][c] == Text("") then Null else t.rows[k][c]))
  }

  // ---------------------------------------------------------------------
  // Counting
  // ---------------------------------------------------------------------

  /** `df[c].notna().sum()`. */
  function NonNullCount(t: Table, c: string): (n: nat)
    ensures n <= |t.rows|
    decreases |t.rows|
  {
    if t.rows == [] then 0
    else (if Get(t.rows[0], c) != Null then 1 else 0) + NonNullCount(Table(t.columns, t.rows[1..]), c)
  }

  /** `df[c].notna().any()` is the same as a positive non-null count. */
  lemma {:induction false} NonNullCountPositive(t: Table, c: string)
    ensures NonNullCount(t, c) > 0 <==> exists k :: 0 <= k < |t.rows| && Get(t.rows[k], c) != Null
    decreases |t.rows|
  {
    if t.rows != [] {
      var rest := Table(t.columns, t.rows[1..]);
      NonNullCountPositive(rest, c);
      if NonNullCount(rest, c) > 0 {
        var k :| 0 <= k < |rest.rows| && Get(rest.rows[k], c) != Null;
        assert Get(t.rows[k + 1], c) != Null;
      }
      forall k | 1 <= k < |t.rows| && Get(t.rows[k], c) != Null ensures NonNullCount(rest, c) > 0 {
        assert Get(rest.rows[k - 1], c) != Null;
      }
    }
  }

  /** `df[c].isna().sum()`: the rows minus the non-null ones. */
  function NullCount(t: Table, c: string): (n: nat)
    ensures n + NonNullCount(t, c) == |t.rows|
    decreases |t.rows|
  {
    if t.rows == [] then 0
    else (if Get(t.rows[0], c) == Null then 1 else 0) + NullCount(Table(t.columns, t.rows[1..]), c)
  }

  /** `set(df[c].dropna())`. */
  function NonNullValues(t: Table, c: string): (s: set<Cell>)
    ensures Null !in s
    ensures forall v :: v in s <==> exists k :: 0 <= k < |t.rows| && Get(t.rows[k], c) == v && v != Null
  {
    set k | 0 <= k < |t.rows| && Get(t.rows[k], c) != Null :: Get(t.rows[k], c)
  }

  // ---------------------------------------------------------------------
  // Left merge
  // ---------------------------------------------------------------------

  /** The columns `left.merge(right, left_on=lk, right_on=rk, how='left',
      suffixes=('', suffix))` appends, as (name in the result, name in the
      right frame) pairs: each right column in order, the shared key left
      out when both keys have one name, and a right column whose name the
      left frame already has renamed with the suffix (the left one keeps
      its name). */
  function Appended(leftCols: seq<string>, rightCols: seq<string>, lk: string, rk: string, suffix: string)
    : (pairs: seq<(string, string)>)
    ensures |pairs| <= |rightCols|
    ensures forall j :: 0 <= j < |pairs| ==> pairs[j].1 in rightCols
    ensures forall j :: 0 <= j < |pairs| ==>
      pairs[j].0 == if pairs[j].1 in leftCols then pairs[j].1 + suffix else pairs[j].1
    ensures forall j :: 0 <= j < |pairs| ==> !(lk == rk && pairs[j].1 == rk)
  {
    if rightCols == [] then []
    else
      var c := rightCols[0];
      var rest := Appended(leftCols, rightCols[1..], lk, rk, suffix);
      if lk == rk && c == rk then rest
      else [(if c in leftCols then c + suffix else c, c)] + rest
  }

  /** Every right column but a shared key is appended. */
  lemma {:induction false} AppendedCovers(leftCols: seq<string>, rightCols: seq<string>, lk: string, rk: string, suffix: string, c: string)
    requires c in rightCols && !(lk == rk && c == rk)
    ensures exists j :: (0 <= j < |Appended(leftCols, rightCols, lk, rk, suffix)|
      && Appended(leftCols, rightCols, lk, rk, suffix)[j].1 == c)
  {
    var pairs := Appended(leftCols, rightCols, lk, rk, suffix);
    if c != rightCols[0] {
      assert c in rightCols[1..];
      AppendedCovers(leftCols, rightCols[1..], lk, rk, suffix, c);
      var rest := Appended(leftCols, rightCols[1..], lk, rk, suffix);
      var j :| 0 <= j < |rest| && rest[j].1 == c;
      if lk == rk && rightCols[0] == rk {
        assert pairs[j].1 == c;
      } else {
        assert pairs[j + 1].1 == c;
      }
    } else {
      assert pairs[0].1 == c;
    }
  }

  /** Two right columns never share a name in the result when no right
      column name already ends with the suffix. */
  lemma SuffixedNamesDiffer(leftCols: seq<string>, a: string, b: string, suffix: string)
    requires a != b && !EndsWith(a, suffix) && !EndsWith(b, suffix)
    ensures (if a in leftCols then a + suffix else a) != (if b in leftCols then b + suffix else b)
  {
    if a in leftCols && b !in leftCols {
      assert (a + suffix)[|a + suffix| - |suffix|..] == suffix;
    } else if b in leftCols && a !in leftCols {
      assert (b + suffix)[|b + suffix| - |suffix|..] == suffix;
    } else if a in leftCols && b in leftCols {
      assert (a + suffix)[..|a|] == a;
      assert (b + suffix)[..|b|] == b;
    }
  }

  /** The appended columns have distinct names when the right frame's do
      and none of them ends with the suffix. */
  lemma {:induction false} AppendedDistinct(leftCols: seq<string>, rightCols: seq<string>, lk: string, rk: string, suffix: string)
    requires DistinctNames(rightCols)
    requires forall c :: c in rightCols ==> !EndsWith(c, suffix)
    ensures DistinctNames(Names(Appended(leftCols, rightCols, lk, rk, suffix)))
  {
    if rightCols != [] {
      var c, tail := rightCols[0], rightCols[1..];
      DistinctTail(rightCols);
      AppendedDistinct(leftCols, tail, lk, rk, suffix);
      if !(lk == rk && c == rk) {
        var rest := Appended(leftCols, tail, lk, rk, suffix);
        var x := if c in leftCols then c + suffix else c;
        AppendedHeadFresh(leftCols, rightCols, lk, rk, suffix);
        NamesCons((x, c), rest);
        DistinctCons(x, Names(rest));
      }
    }
  }

  /** Dropping the first name keeps the names distinct. */
  lemma DistinctTail(cols: seq<string>)
    requires cols != [] && DistinctNames(cols)
    ensures DistinctNames(cols[1..])
  {
    forall i, j | 0 <= i < j < |cols[1..]| ensures cols[1..][i] != cols[1..][j] {
      assert cols[1..][i] == cols[i + 1] && cols[1..][j] == cols[j + 1];
    }
  }

  /** A new name in front keeps the names distinct. */
  lemma DistinctCons(x: string, cols: seq<string>)
    requires DistinctNames(cols) && x !in cols
    ensures DistinctNames([x] + cols)
  {
    forall i, j | 0 <= i < j < |[x] + cols| ensures ([x] + cols)[i] != ([x] + cols)[j] {
      if i > 0 {
        assert ([x] + cols)[i] == cols[i - 1];
      }
      assert ([x] + cols)[j] == cols[j - 1];
    }
  }

  /** The name given to the first right column is not among the names of
      the columns appended after it. */
  lemma AppendedHeadFresh(leftCols: seq<string>, rightCols: seq<string>, lk: string, rk: string, suffix: string)
    requires rightCols != [] && DistinctNames(rightCols)
    requires forall c :: c in rightCols ==> !EndsWith(c, suffix)
    ensures var c := rightCols[0];
      (if c in leftCols then c + suffix else c) !in Names(Appended(leftCols, rightCols[1..], lk, rk, suffix))
  {
    var c, tail := rightCols[0], rightCols[1..];
    var rest := Appended(leftCols, tail, lk, rk, suffix);
    forall j | 0 <= j < |rest| ensures rest[j].0 != (if c in leftCols then c + suffix else c) {
      var i :| 0 <= i < |tail| && tail[i] == rest[j].1;
      assert rightCols[i + 1] == rest[j].1;
      SuffixedNamesDiffer(leftCols, c, rest[j].1, suffix);
    }
  }

  /** A left column whose name does not end with the suffix is not among
      the appended names. */
  lemma AppendedAvoidsOwn(leftCols: seq<string>, rightCols: seq<string>, lk: string, rk: string, suffix: string, c: string)
    requires c in leftCols && !EndsWith(c, suffix)
    ensures c !in Names(Appended(leftCols, rightCols, lk, rk, suffix))
  {
    var pairs := Appended(leftCols, rightCols, lk, rk, suffix);
    forall j | 0 <= j < |pairs| ensures Names(pairs)[j] != c {
      var d := pairs[j].1;
      if d in leftCols {
        EndsWithAppended(d, suffix);
      }
    }
  }

  /** A right column the left frame lacks is appended under its own name. */
  lemma AppendedOwnIndex(leftCols: seq<string>, rightCols: seq<string>, lk: string, rk: string, suffix: string, c: string)
    returns (j: nat)
    requires c in rightCols && c !in leftCols && !(lk == rk && c == rk)
    ensures j < |Appended(leftCols, rightCols, lk, rk, suffix)|
    ensures Appended(leftCols, rightCols, lk, rk, suffix)[j] == (c, c)
    ensures Names(Appended(leftCols, rightCols, lk, rk, suffix))[j] == c
  {
    var pairs := Appended(leftCols, rightCols, lk, rk, suffix);
    AppendedCovers(leftCols, rightCols, lk, rk, suffix, c);
    j :| 0 <= j < |pairs| && pairs[j].1 == c;
  }

  /** The names of a pair in front of a list. */
  lemma NamesCons(p: (string, string), pairs: seq<(string, string)>)
    ensures Names([p] + pairs) == [p.0] + Names(pairs)
  {
    var l, r := Names([p] + pairs), [p.0] + Names(pairs);
    forall j | 0 <= j < |l| ensures l[j] == r[j] {
      if j > 0 {
        assert ([p] + pairs)[j] == pairs[j - 1];
      }
    }
  }

  function Names(pairs: seq<(string, string)>): (names: seq<string>)
    ensures |names| == |pairs| && forall j :: 0 <= j < |pairs| ==> names[j] == pairs[j].0
  {
    seq(|pairs|, j requires 0 <= j < |pairs| => pairs[j].0)
  }

  /** A left row extended with the appended columns of its partner, or with
      NA when it has none. */
  function Extend(l: Row, partner: Option<Row>, pairs: seq<(string, string)>): Row
  {
    if pairs == [] then l
    else
      var p := pairs[|pairs| - 1];
      Extend(l, partner, pairs[..|pairs| - 1])[p.0 := if partner.Some? then Get(partner.value, p.1) else Null]
  }

  /** The right rows whose key equals `key`, in order. Equal NA keys match,
      as they do in a pandas merge. */
  function Matches(rows: seq<Row>, rk: string, key: Cell): (ms: seq<Row>)
    ensures |ms| <= |rows|
  {
    if rows == [] then []
    else (if Get(rows[0], rk) == key then [rows[0]] else []) + Matches(rows[1..], rk, key)
  }

  function MergeRow(l: Row, right: seq<Row>, lk: string, rk: string, pairs: seq<(string, string)>)
    : (out: seq<Row>)
    ensures |out| >= 1
  {
    var ms := Matches(right, rk, Get(l, lk));
    if ms == [] then [Extend(l, None, pairs)]
    else seq(|ms|, j requires 0 <= j < |ms| => Extend(l, Some(ms[j]), pairs))
  }

  function MergeRows(ls: seq<Row>, right: seq<Row>, lk: string, rk: string, pairs: seq<(string, string)>)
    : (out: seq<Row>)
    ensures |out| >= |ls|
  {
    if ls == [] then []
    else MergeRow(ls[0], right, lk, rk, pairs) + MergeRows(ls[1..], right, lk, rk, pairs)
  }

  /** `left.merge(right, left_on=lk, right_on=rk, how='left',
      suffixes=('', suffix))`: every left row, in order, once per matching
      right row, or once with NA when nothing matches. pandas raises
      KeyError when a key column is missing. */
  function LeftMerge(left: Table, right: Table, lk: string, rk: string, suffix: string): (r: Table)
    requires lk in left.columns && rk in right.columns
    ensures |r.rows| >= |left.rows|
  {
    var pairs := Appended(left.columns, right.columns, lk, rk, suffix);
    Table(left.columns + Names(pairs), MergeRows(left.rows, right.rows, lk, rk, pairs))
  }

  // --- the merge when the right keys are unique ---------------------------

  /** No two right rows share a key. */
  predicate UniqueKeys(rows: seq<Row>, rk: string) {
    forall i, j :: 0 <= i < j < |rows| ==> Get(rows[i], rk) != Get(rows[j], rk)
  }

  /** The position of the first row whose key is `key`. */
  function FindKey(rows: seq<Row>, rk: string, key: Cell): (r: Option<nat>)
    ensures r.Some? ==> r.value < |rows| && Get(rows[r.value], rk) == key
    ensures r.Some? ==> forall i :: 0 <= i < r.value ==> Get(rows[i], rk) != key
    ensures r.None? ==> forall i :: 0 <= i < |rows| ==> Get(rows[i], rk) != key
  {
    if rows == [] then None
    else if Get(rows[0], rk) == key then Some(0)
    else
      var r := FindKey(rows[1..], rk, key);
      assert forall i :: 1 <= i < |rows| ==> rows[i] == rows[1..][i - 1];
      if r.Some? then Some(r.value + 1) else None
  }

  /** The partner row of a key, if any. */
  function Partner(rows: seq<Row>, rk: string, key: Cell): Option<Row>
  {
    match FindKey(rows, rk, key)
    case Some(j) => Some(rows[j])
    case None => None
  }

  lemma {:induction false} MatchesUnique(rows: seq<Row>, rk: string, key: Cell)
    requires UniqueKeys(rows, rk)
    ensures Matches(rows, rk, key) == match Partner(rows, rk, key) { case Some(r) => [r] case None => [] }
  {
    if rows != [] {
      assert UniqueKeys(rows[1..], rk) by {
        forall i, j | 0 <= i < j < |rows[1..]| ensures Get(rows[1..][i], rk) != Get(rows[1..][j], rk) {
          assert rows[1..][i] == rows[i + 1] && rows[1..][j] == rows[j + 1];
        }
      }
      MatchesUnique(rows[1..], rk, key);
      if Get(rows[0], rk) == key {
        assert FindKey(rows[1..], rk, key).None?;
      }
    }
  }

  /** With unique right keys, a left row meets at most its one partner. */
  lemma MergeRowUnique(l: Row, right: seq<Row>, lk: string, rk: string, pairs: seq<(string, string)>)
    requires UniqueKeys(right, rk)
    ensures MergeRow(l, right, lk, rk, pairs) == [Extend(l, Partner(right, rk, Get(l, lk)), pairs)]
  {
    MatchesUnique(right, rk, Get(l, lk));
  }

  /** With unique right keys, a left merge keeps every left row exactly once
      and in order, each extended with its partner's columns. */
  lemma {:induction false} MergeRowsUnique(ls: seq<Row>, right: seq<Row>, lk: string, rk: string, pairs: seq<(string, string)>)
    requires UniqueKeys(right, rk)
    ensures var out := MergeRows(ls, right, lk, rk, pairs);
      |out| == |ls| && forall i :: 0 <= i < |ls| ==> out[i] == Extend(ls[i], Partner(right, rk, Get(ls[i], lk)), pairs)
  {
    if ls != [] {
      MergeRowsUnique(ls[1..], right, lk, rk, pairs);
      MergeRowUnique(ls[0], right, lk, rk, pairs);
      var head := MergeRow(ls[0], right, lk, rk, pairs);
      var rest := MergeRows(ls[1..], right, lk, rk, pairs);
      var out := MergeRows(ls, right, lk, rk, pairs);
      assert out == head + rest;
      forall i | 0 <= i < |ls| ensures out[i] == Extend(ls[i], Partner(right, rk, Get(ls[i], lk)), pairs) {
        if i > 0 {
          assert out[i] == rest[i - 1];
          assert ls[i] == ls[1..][i - 1];
        }
      }
    }
  }

  /** Reading an extended row: an appended column holds the partner's
      value (NA without a partner); every other column keeps the left
      row's value. */
  lemma {:induction false} ExtendGet(l: Row, partner: Option<Row>, pairs: seq<(string, string)>, c: string)
    requires DistinctNames(Names(pairs))
    ensures c !in Names(pairs) ==> Get(Extend(l, partner, pairs), c) == Get(l, c)
    ensures forall j :: 0 <= j < |pairs| && pairs[j].0 == c ==>
      Get(Extend(l, partner, pairs), c) == if partner.Some? then Get(partner.value, pairs[j].1) else Null
  {
    if pairs != [] {
      var init := pairs[..|pairs| - 1];
      assert Names(init) == Names(pairs)[..|pairs| - 1];
      ExtendGet(l, partner, init, c);
      forall j | 0 <= j < |pairs| - 1 ensures pairs[j].0 != pairs[|pairs| - 1].0 {
        assert Names(pairs)[j] == pairs[j].0;
      }
      if c !in Names(pairs) {
        assert c != Names(pairs)[|pairs| - 1];
      }
    }
  }

  /** A merge of a well-formed left frame onto unique right keys: the
      left frame's rows in order, one each, each left column unchanged
      unless an appended column has its name, each appended column the
      partner's value or NA. */
  lemma LeftMergeUnique(left: Table, right: Table, lk: string, rk: string, suffix: string, i: nat, c: string)
    requires lk in left.columns && rk in right.columns
    requires UniqueKeys(right.rows, rk) && DistinctNames(Names(Appended(left.columns, right.columns, lk, rk, suffix)))
    requires i < |left.rows|
    ensures var r := LeftMerge(left, right, lk, rk, suffix);
      var pairs := Appended(left.columns, right.columns, lk, rk, suffix);
      var partner := Partner(right.rows, rk, Get(left.rows[i], lk));
      && |r.rows| == |left.rows|
      && (c !in Names(pairs) ==> Get(r.rows[i], c) == Get(left.rows[i], c))
      && (forall j :: 0 <= j < |pairs| && pairs[j].0 == c ==>
            Get(r.rows[i], c) == if partner.Some? then Get(partner.value, pairs[j].1) else Null)
  {
    var pairs := Appended(left.columns, right.columns, lk, rk, suffix);
    MergeRowsUnique(left.rows, right.rows, lk, rk, pairs);
    ExtendGet(left.rows[i], Partner(right.rows, rk, Get(left.rows[i], lk)), pairs, c);
  }

  /** Finding a key looks at the key column only. */
  lemma {:induction false} FindKeySameKeys(a: seq<Row>, b: seq<Row>, rk: string, key: Cell)
    requires |a| == |b| && forall k :: 0 <= k < |a| ==> Get(a[k], rk) == Get(b[k], rk)
    ensures FindKey(a, rk, key) == FindKey(b, rk, key)
  {
    if a != [] {
      FindKeySameKeys(a[1..], b[1..], rk, key);
    }
  }
}
