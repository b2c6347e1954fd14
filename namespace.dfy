/** Identifier namespacing (merge_cldf_datasets.py:64-77, 124-126): every
    identifier a dataset contributes is rewritten to `"{dataset}_" + id`,
    and every citation key inside a `Source` cell likewise. */
module Namespace {
  import opened Text
  import opened Tables

  /** `f"{dataset}_{x}"`. */
  function Prefixed(dataset: string, x: string): string {
    dataset + "_" + x
  }

  /** The namespace prefix can be read back off a namespaced identifier. */
  lemma PrefixedReadsBack(dataset: string, x: string)
    ensures var p := Prefixed(dataset, x);
      |p| == |dataset| + 1 + |x| && p[..|dataset| + 1] == dataset + "_" && p[|dataset| + 1..] == x
  {
  }

  /** Within one dataset, distinct identifiers stay distinct. */
  lemma PrefixedInjective(dataset: string, x: string, y: string)
    requires Prefixed(dataset, x) == Prefixed(dataset, y)
    ensures x == y
  {
    PrefixedReadsBack(dataset, x);
    PrefixedReadsBack(dataset, y);
  }

  /** Across datasets whose names hold no underscore, namespaced
      identifiers never collide. */
  lemma PrefixedAcrossDatasets(d1: string, x: string, d2: string, y: string)
    requires d1 != d2 && '_' !in d1 && '_' !in d2
    ensures Prefixed(d1, x) != Prefixed(d2, y)
  {
    var p, q := Prefixed(d1, x), Prefixed(d2, y);
    if |d1| < |d2| {
      assert p[|d1|] == '_' != d2[|d1|] == q[|d1|];
    } else if |d2| < |d1| {
      assert q[|d2|] == '_' != d1[|d2|] == p[|d2|];
    } else {
      assert exists i :: 0 <= i < |d1| && d1[i] != d2[i];
      var i :| 0 <= i < |d1| && d1[i] != d2[i];
      assert p[i] == d1[i] && q[i] == d2[i];
    }
  }

  /** With underscores in dataset names the namespaces overlap: dataset
      `a` with identifier `b_c` and dataset `a_b` with identifier `c` both
      yield `a_b_c`. */
  lemma PrefixedCollision()
    ensures Prefixed("a", "b_c") == Prefixed("a_b", "c")
  {
  }

  /** One cell of `prefix_ids_column`: NA stays NA, anything else is
      rendered with `str` and prefixed. */
  function PrefixId(c: Cell, dataset: string): (r: Cell)
    ensures c == Null <==> r == Null
    ensures r != Null ==> r == Text(Prefixed(dataset, Str(c)))
  {
    if c == Null then Null else Text(Prefixed(dataset, Str(c)))
  }

  /** `prefix_ids_column` (merge_cldf_datasets.py:124-126). */
  function PrefixIds(col: seq<Cell>, dataset: string): (r: seq<Cell>)
    ensures |r| == |col|
    ensures forall k :: 0 <= k < |col| ==> r[k] == PrefixId(col[k], dataset)
  {
    seq(|col|, k requires 0 <= k < |col| => PrefixId(col[k], dataset))
  }

  /** Prefixing a column keeps its length and order, keeps NA in place,
      and loses nothing: the original is read back from every cell. */
  lemma PrefixIdsReadsBack(col: seq<Cell>, dataset: string, k: nat)
    requires k < |col| && col[k] != Null
    ensures var r := PrefixIds(col, dataset);
      |r| == |col| && r[k].Text? && r[k].s[..|dataset| + 1] == dataset + "_"
      && r[k].s[|dataset| + 1..] == Str(col[k])
  {
    PrefixedReadsBack(dataset, Str(col[k]));
  }

  /** Distinct identifiers of a column remain distinct after prefixing. */
  lemma PrefixIdsKeepsDistinct(col: seq<Cell>, dataset: string, i: nat, j: nat)
    requires i < |col| && j < |col| && col[i].Text? && col[j].Text? && col[i] != col[j]
    ensures PrefixIds(col, dataset)[i] != PrefixIds(col, dataset)[j]
  {
    if PrefixIds(col, dataset)[i] == PrefixIds(col, dataset)[j] {
      PrefixedInjective(dataset, col[i].s, col[j].s);
    }
  }

  // ---------------------------------------------------------------------
  // Citation keys
  // ---------------------------------------------------------------------

  /** The citation keys of a `Source` value: its `;`-separated pieces,
      stripped, the empty ones dropped. */
  function CitationKeys(pieces: seq<string>): (keys: seq<string>)
    ensures |keys| <= |pieces|
    ensures forall k :: 0 <= k < |keys| ==> keys[k] != ""
  {
    if pieces == [] then []
    else
      var key := Strip(pieces[0]);
      (if key != "" then [key] else []) + CitationKeys(pieces[1..])
  }

  /** The number of pieces that are not blank. */
  function NonBlankCount(pieces: seq<string>): nat {
    if pieces == [] then 0
    else (if AllWhitespace(pieces[0]) then 0 else 1) + NonBlankCount(pieces[1..])
  }

  function PrefixAll(dataset: string, keys: seq<string>): (r: seq<string>)
    ensures |r| == |keys|
    ensures forall k :: 0 <= k < |keys| ==> r[k] == Prefixed(dataset, keys[k])
  {
    seq(|keys|, k requires 0 <= k < |keys| => Prefixed(dataset, keys[k]))
  }

  /** `prefix_bibtex_keys` (merge_cldf_datasets.py:64-77). */
  function PrefixBibtexKeys(source: Cell, dataset: string): (r: Cell)
    ensures source == Null || source == Text("") ==> r == source
    ensures source != Null && source != Text("") ==> r.Text?
  {
    if source == Null || source == Text("") then source
    else Text(Join(";", PrefixAll(dataset, CitationKeys(Split(Str(source), ';')))))
  }

  lemma {:induction false} CitationKeysCount(pieces: seq<string>)
    ensures |CitationKeys(pieces)| == NonBlankCount(pieces)
  {
    if pieces != [] {
      CitationKeysCount(pieces[1..]);
      StripBlank(pieces[0]);
    }
  }

  /** A character absent from every piece is absent from every key. */
  lemma {:induction false} CitationKeysAvoid(pieces: seq<string>, c: char)
    requires forall j :: 0 <= j < |pieces| ==> c !in pieces[j]
    ensures forall k :: 0 <= k < |CitationKeys(pieces)| ==> c !in CitationKeys(pieces)[k]
  {
    if pieces != [] {
      CitationKeysAvoid(pieces[1..], c);
      StripKeepsChars(pieces[0]);
    }
  }

  /** Stripping removes characters, it never adds one. */
  lemma StripKeepsChars(s: string)
    ensures forall c :: c in Strip(s) ==> c in s
  {
    var i := StripSlice(s);
    forall c | c in Strip(s) ensures c in s {
      var j :| 0 <= j < |Strip(s)| && Strip(s)[j] == c;
      assert s[i + j] == c;
    }
  }

  /** What `prefix_bibtex_keys` promises: NA and `""` come back unchanged;
      any other value comes back as its non-blank keys, stripped, each
      prefixed, joined by `;` — so splitting the result on `;` gives back
      exactly one prefixed key per non-blank input key, in input order, and
      a value with only blank keys becomes `""`. */
  lemma PrefixBibtexKeysSpec(source: Cell, dataset: string)
    requires source != Null && source != Text("")
    requires ';' !in dataset
    ensures var pieces := Split(Str(source), ';');
      var keys := CitationKeys(pieces);
      var r := PrefixBibtexKeys(source, dataset);
      && |keys| == NonBlankCount(pieces)
      && (keys == [] ==> r == Text(""))
      && (keys != [] ==> Split(r.s, ';') == PrefixAll(dataset, keys))
  {
    var pieces := Split(Str(source), ';');
    var keys := CitationKeys(pieces);
    CitationKeysCount(pieces);
    SplitPiecesFree(Str(source), ';');
    CitationKeysAvoid(pieces, ';');
    var out := PrefixAll(dataset, keys);
    if keys != [] {
      forall k | 0 <= k < |out| ensures ';' !in out[k] {
        assert out[k] == dataset + "_" + keys[k];
      }
      SplitJoin(out, ';');
    }
  }
}
