/** Fetching the Lexibank datasets (clone_lexibank.py): the rows of
    `datasets.csv` are filtered into a list of repositories, each one is
    cloned when its directory is absent and pulled when it is present,
    and the outcomes are tallied. Git itself is outside the model: whether
    each call succeeds is an input. */
module Clone {
  import opened Wrappers
  import opened Text

  /** A row as `csv.DictReader` yields it: a column the row is too short
      to fill holds `None`. */
  type Row = map<string, Option<string>>

  /** `row.get(key, '').strip()`; `None.strip()` raises AttributeError. */
  function Field(row: Row, key: string): (r: Result<string>)
    ensures r.Err? <==> key in row && row[key].None?
    ensures key !in row ==> r == Ok("")
  {
    if key !in row then Ok("")
    else if row[key].None? then Err("AttributeError: 'NoneType' object has no attribute 'strip'")
    else Ok(Strip(row[key].value))
  }

  datatype Repository = Repository(name: string, url: string, isCore: bool, isCorecog: bool)

  /** The values of `keys`, read in order; the first that cannot be read
      stops the reading. */
  function Fields(row: Row, keys: seq<string>): (r: Result<seq<string>>)
    ensures r.Ok? ==> |r.value| == |keys|
    decreases |keys|
  {
    if keys == [] then Ok([])
    else
      var v :- Field(row, keys[0]);
      var rest :- Fields(row, keys[1..]);
      Ok([v] + rest)
  }

  lemma {:induction false} FieldsOk(row: Row, keys: seq<string>)
    ensures Fields(row, keys).Ok? <==> forall j :: 0 <= j < |keys| ==> Field(row, keys[j]).Ok?
    ensures Fields(row, keys).Ok? ==> forall j :: 0 <= j < |keys| ==> Fields(row, keys).value[j] == Field(row, keys[j]).value
    decreases |keys|
  {
    if keys != [] {
      FieldsOk(row, keys[1..]);
      if forall j :: 0 <= j < |keys| ==> Field(row, keys[j]).Ok? {
        forall j | 0 <= j < |keys| - 1 ensures Field(row, keys[1..][j]).Ok? {
          assert keys[1..][j] == keys[j + 1];
        }
      }
      if Fields(row, keys).Ok? {
        forall j | 0 <= j < |keys|
          ensures Field(row, keys[j]).Ok? && Fields(row, keys).value[j] == Field(row, keys[j]).value
        {
          if j > 0 {
            assert keys[j] == keys[1..][j - 1];
          }
        }
      }
    }
  }

  /** The columns `read_datasets` reads (clone_lexibank.py:137-140). */
  const Columns: seq<string> := ["NAME", "URL", "CORE", "CORECOG"]

  /** One row of `read_datasets` (clone_lexibank.py:137-140): the four
      values stripped, a flag set by the text `TRUE`. */
  function ParseRow(row: Row): Result<Repository> {
    var v :- Fields(row, Columns);
    Ok(Repository(v[0], v[1], v[2] == "TRUE", v[3] == "TRUE"))
  }

  /** The four values of a row that can be read. */
  lemma ParseRowValues(row: Row)
    ensures ParseRow(row).Ok? <==>
      && Field(row, "NAME").Ok? && Field(row, "URL").Ok?
      && Field(row, "CORE").Ok? && Field(row, "CORECOG").Ok?
    ensures ParseRow(row).Ok? ==> ParseRow(row).value == Repository(
      Field(row, "NAME").value, Field(row, "URL").value,
      Field(row, "CORE").value == "TRUE", Field(row, "CORECOG").value == "TRUE")
  {
    FieldsOk(row, Columns);
    assert Columns[0] == "NAME" && Columns[1] == "URL" && Columns[2] == "CORE" && Columns[3] == "CORECOG";
  }

  /** A row is read unless one of the four columns is present but
      unfilled (a row shorter than the header). */
  lemma ParseRowOk(row: Row)
    ensures ParseRow(row).Ok? <==>
      && ("NAME" in row ==> row["NAME"].Some?) && ("URL" in row ==> row["URL"].Some?)
      && ("CORE" in row ==> row["CORE"].Some?) && ("CORECOG" in row ==> row["CORECOG"].Some?)
  {
    ParseRowValues(row);
  }

  /** A flag is set only by the exact text `TRUE` once surrounding
      whitespace is removed: `true`, `yes` or an absent column leave it
      unset. */
  lemma ParseRowFlags(row: Row)
    requires ParseRow(row).Ok?
    ensures ParseRow(row).value.isCore <==> "CORE" in row && Strip(row["CORE"].value) == "TRUE"
    ensures ParseRow(row).value.isCorecog <==> "CORECOG" in row && Strip(row["CORECOG"].value) == "TRUE"
  {
    ParseRowValues(row);
  }

  /** The name (likewise the URL) is empty exactly when its column is
      absent or blank. */
  lemma ParseRowBlank(row: Row)
    requires ParseRow(row).Ok?
    ensures ParseRow(row).value.name == "" <==> "NAME" !in row || AllWhitespace(row["NAME"].value)
    ensures ParseRow(row).value.url == "" <==> "URL" !in row || AllWhitespace(row["URL"].value)
  {
    ParseRowValues(row);
    if "NAME" in row {
      StripBlank(row["NAME"].value);
    }
    if "URL" in row {
      StripBlank(row["URL"].value);
    }
  }

  /** The filter of clone_lexibank.py:143-148: the collection flags first,
      then a non-empty name and URL. */
  predicate Keeps(rep: Repository, coreOnly: bool, corecogOnly: bool) {
    && !(coreOnly && !rep.isCore)
    && !(corecogOnly && !rep.isCorecog)
    && rep.name != "" && rep.url != ""
  }

  /** Every row read, in order. */
  function Parsed(rows: seq<Row>): (r: seq<Result<Repository>>)
    ensures |r| == |rows|
    decreases |rows|
  {
    if rows == [] then [] else Parsed(rows[..|rows| - 1]) + [ParseRow(rows[|rows| - 1])]
  }

  lemma {:induction false} ParsedAt(rows: seq<Row>, i: nat)
    requires i < |rows|
    ensures Parsed(rows)[i] == ParseRow(rows[i])
    decreases |rows|
  {
    if i < |rows| - 1 {
      ParsedAt(rows[..|rows| - 1], i);
    }
  }

  /** The repositories the rows yield, in order, or the error of the first
      row that cannot be read. */
  function Selected(parsed: seq<Result<Repository>>, coreOnly: bool, corecogOnly: bool): (r: Result<seq<Repository>>)
    ensures r.Ok? ==> |r.value| <= |parsed|
    decreases |parsed|
  {
    if parsed == [] then Ok([])
    else
      var before :- Selected(parsed[..|parsed| - 1], coreOnly, corecogOnly);
      var rep :- parsed[|parsed| - 1];
      Ok(before + if Keeps(rep, coreOnly, corecogOnly) then [rep] else [])
  }

  /** `read_datasets` (clone_lexibank.py:118-169): a missing file, or any
      error while reading, ends the script with exit status 1. */
  method ReadDatasets(file: Option<seq<Row>>, coreOnly: bool, corecogOnly: bool) returns (r: Result<seq<Repository>>)
    ensures file.None? ==> r.Err?
    ensures file.Some? ==> r == Selected(Parsed(file.value), coreOnly, corecogOnly)
  {
    if file.None? {
      return Err("CSV file not found");
    }
    var rows := file.value;
    ghost var parsed := Parsed(rows);
    var repositories: seq<Repository> := [];
    for i := 0 to |rows|
      invariant Selected(parsed[..i], coreOnly, corecogOnly) == Ok(repositories)
    {
      var rep := ParseRow(rows[i]);
      ParsedAt(rows, i);
      SelectedSnoc(parsed, i, coreOnly, corecogOnly);
      if rep.Err? {
        SelectedErrPersists(parsed, i + 1, coreOnly, corecogOnly);
        return Err(rep.error);
      }
      if Keeps(rep.value, coreOnly, corecogOnly) {
        repositories := repositories + [rep.value];
      }
    }
    assert parsed[..|rows|] == parsed;
    r := Ok(repositories);
  }

  /** One more row: its error, or its repository appended when kept. */
  lemma SelectedSnoc(parsed: seq<Result<Repository>>, i: nat, coreOnly: bool, corecogOnly: bool)
    requires i < |parsed|
    ensures Selected(parsed[..i + 1], coreOnly, corecogOnly) ==
      if Selected(parsed[..i], coreOnly, corecogOnly).Err? then Selected(parsed[..i], coreOnly, corecogOnly)
      else if parsed[i].Err? then Err(parsed[i].error)
      else if Keeps(parsed[i].value, coreOnly, corecogOnly) then Ok(Selected(parsed[..i], coreOnly, corecogOnly).value + [parsed[i].value])
      else Selected(parsed[..i], coreOnly, corecogOnly)
  {
    assert parsed[..i + 1][..i] == parsed[..i];
    var before := Selected(parsed[..i], coreOnly, corecogOnly);
    if before.Ok? && parsed[i].Ok? && !Keeps(parsed[i].value, coreOnly, corecogOnly) {
      assert before.value + [] == before.value;
    }
  }

  /** Once a row cannot be read, neither can the file. */
  lemma {:induction false} SelectedErrPersists(parsed: seq<Result<Repository>>, n: nat, coreOnly: bool, corecogOnly: bool)
    requires n <= |parsed| && Selected(parsed[..n], coreOnly, corecogOnly).Err?
    ensures Selected(parsed, coreOnly, corecogOnly) == Selected(parsed[..n], coreOnly, corecogOnly)
    decreases |parsed| - n
  {
    if n < |parsed| {
      assert parsed[..n + 1][..n] == parsed[..n];
      SelectedErrPersists(parsed, n + 1, coreOnly, corecogOnly);
    } else {
      assert parsed[..n] == parsed;
    }
  }

  /** The file is read exactly when every row can be. */
  lemma {:induction false} SelectedOkIff(parsed: seq<Result<Repository>>, coreOnly: bool, corecogOnly: bool)
    ensures Selected(parsed, coreOnly, corecogOnly).Ok? <==> forall i :: 0 <= i < |parsed| ==> parsed[i].Ok?
    decreases |parsed|
  {
    if parsed != [] {
      var prefix := parsed[..|parsed| - 1];
      SelectedOkIff(prefix, coreOnly, corecogOnly);
      if forall i :: 0 <= i < |parsed| ==> parsed[i].Ok? {
        forall i | 0 <= i < |prefix| ensures prefix[i].Ok? {
          assert prefix[i] == parsed[i];
        }
      }
      if Selected(parsed, coreOnly, corecogOnly).Ok? {
        forall i | 0 <= i < |parsed| ensures parsed[i].Ok? {
          if i < |prefix| {
            assert prefix[i] == parsed[i];
          }
        }
      }
    }
  }

  /** Every repository returned has a name and a URL, and belongs to the
      requested collections. */
  lemma {:induction false} SelectedKept(parsed: seq<Result<Repository>>, coreOnly: bool, corecogOnly: bool)
    requires Selected(parsed, coreOnly, corecogOnly).Ok?
    ensures forall rep :: rep in Selected(parsed, coreOnly, corecogOnly).value ==>
      && rep.name != "" && rep.url != ""
      && (coreOnly ==> rep.isCore)
      && (corecogOnly ==> rep.isCorecog)
    decreases |parsed|
  {
    if parsed != [] {
      SelectedKept(parsed[..|parsed| - 1], coreOnly, corecogOnly);
    }
  }

  /** The positions of the rows that are kept, in increasing order. */
  function KeptIndices(parsed: seq<Result<Repository>>, coreOnly: bool, corecogOnly: bool): (idx: seq<nat>)
    requires forall i :: 0 <= i < |parsed| ==> parsed[i].Ok?
    ensures forall j :: 0 <= j < |idx| ==> idx[j] < |parsed|
    decreases |parsed|
  {
    if parsed == [] then []
    else
      var n := |parsed| - 1;
      var prefix := parsed[..n];
      assert forall i :: 0 <= i < |prefix| ==> prefix[i] == parsed[i];
      KeptIndices(prefix, coreOnly, corecogOnly)
        + if Keeps(parsed[n].value, coreOnly, corecogOnly) then [n] else []
  }

  /** The result is an order-preserving selection of the rows: the j-th
      repository is the one read from the row at the j-th kept position,
      the positions increase, and a row's position is among them exactly
      when the row passes the filter. */
  lemma {:induction false} SelectedSubsequence(parsed: seq<Result<Repository>>, coreOnly: bool, corecogOnly: bool)
    requires forall i :: 0 <= i < |parsed| ==> parsed[i].Ok?
    ensures Selected(parsed, coreOnly, corecogOnly).Ok?
    ensures var r, idx := Selected(parsed, coreOnly, corecogOnly).value, KeptIndices(parsed, coreOnly, corecogOnly);
      && |idx| == |r|
      && (forall j :: 0 <= j < |idx| ==> r[j] == parsed[idx[j]].value)
      && (forall j, k :: 0 <= j < k < |idx| ==> idx[j] < idx[k])
      && (forall i :: 0 <= i < |parsed| ==> (i in idx <==> Keeps(parsed[i].value, coreOnly, corecogOnly)))
    decreases |parsed|
  {
    SelectedOkIff(parsed, coreOnly, corecogOnly);
    if parsed != [] {
      var n := |parsed| - 1;
      var prefix := parsed[..n];
      forall i | 0 <= i < |prefix| ensures prefix[i].Ok? {
        assert prefix[i] == parsed[i];
      }
      SelectedSubsequence(prefix, coreOnly, corecogOnly);
      var r0, idx0 := Selected(prefix, coreOnly, corecogOnly).value, KeptIndices(prefix, coreOnly, corecogOnly);
      var r, idx := Selected(parsed, coreOnly, corecogOnly).value, KeptIndices(parsed, coreOnly, corecogOnly);
      forall j | 0 <= j < |idx| ensures r[j] == parsed[idx[j]].value {
        if j < |idx0| {
          assert idx[j] == idx0[j] && r[j] == r0[j];
          assert prefix[idx0[j]] == parsed[idx0[j]];
        }
      }
      forall i | 0 <= i < |parsed| ensures i in idx <==> Keeps(parsed[i].value, coreOnly, corecogOnly) {
        if i < n {
          assert prefix[i] == parsed[i];
          assert i in idx <==> i in idx0;
        }
      }
    }
  }

  // ---------------------------------------------------------------------
  // Cloning and pulling (clone_lexibank.py:95-115, 223-260)
  // ---------------------------------------------------------------------

  datatype Action = Cloned | Updated | Failed

  /** `process_repository`: pull when the directory exists, clone
      otherwise; `gitOk` is whether that git call succeeded. */
  function ProcessRepository(dirExists: bool, gitOk: bool): (r: (bool, Action))
    ensures r.0 <==> gitOk
    ensures r.1 == Failed <==> !gitOk
    ensures r.1 == Updated <==> dirExists && gitOk
    ensures r.1 == Cloned <==> !dirExists && gitOk
  {
    if dirExists then (gitOk, if gitOk then Updated else Failed)
    else (gitOk, if gitOk then Cloned else Failed)
  }

  /** The `stats` dictionary of `main`. */
  datatype Stats = Stats(cloned: nat, updated: nat, failed: nat)

  /** The tally and the set of repository directories after a prefix of
      the loop; a successful clone creates the directory, so a name listed
      twice is pulled the second time. */
  datatype Sync = Sync(stats: Stats, present: set<string>)

  function Count(stats: Stats, action: Action): Stats {
    match action
    case Cloned => stats.(cloned := stats.cloned + 1)
    case Updated => stats.(updated := stats.updated + 1)
    case Failed => stats.(failed := stats.failed + 1)
  }

  function Step(s: Sync, rep: Repository, gitOk: bool): Sync {
    var (_, action) := ProcessRepository(rep.name in s.present, gitOk);
    Sync(Count(s.stats, action), if action == Cloned then s.present + {rep.name} else s.present)
  }

  /** The state after the loop of clone_lexibank.py:240-248 over `repos`,
      starting from the directories in `existing`. */
  function Run(repos: seq<Repository>, gitOk: seq<bool>, existing: set<string>): (s: Sync)
    requires |gitOk| == |repos|
    ensures s.stats.cloned + s.stats.updated + s.stats.failed == |repos|
    decreases |repos|
  {
    if repos == [] then Sync(Stats(0, 0, 0), existing)
    else
      var n := |repos| - 1;
      Step(Run(repos[..n], gitOk[..n], existing), repos[n], gitOk[n])
  }

  /** The number of git calls that failed. */
  function Failures(gitOk: seq<bool>): (n: nat)
    ensures n <= |gitOk|
    decreases |gitOk|
  {
    if gitOk == [] then 0
    else Failures(gitOk[..|gitOk| - 1]) + if gitOk[|gitOk| - 1] then 0 else 1
  }

  /** A repository counts as failed exactly when its git call failed,
      whether it was a clone or a pull. */
  lemma {:induction false} RunFailures(repos: seq<Repository>, gitOk: seq<bool>, existing: set<string>)
    requires |gitOk| == |repos|
    ensures Run(repos, gitOk, existing).stats.failed == Failures(gitOk)
    decreases |repos|
  {
    if repos != [] {
      var n := |repos| - 1;
      RunFailures(repos[..n], gitOk[..n], existing);
    }
  }

  /** Directories are never removed, and every repository whose git call
      succeeded has its directory afterwards. */
  lemma {:induction false} RunPresent(repos: seq<Repository>, gitOk: seq<bool>, existing: set<string>)
    requires |gitOk| == |repos|
    ensures existing <= Run(repos, gitOk, existing).present
    ensures forall i :: 0 <= i < |repos| && gitOk[i] ==> repos[i].name in Run(repos, gitOk, existing).present
    decreases |repos|
  {
    if repos != [] {
      var n := |repos| - 1;
      RunPresent(repos[..n], gitOk[..n], existing);
      forall i | 0 <= i < |repos| && gitOk[i] ensures repos[i].name in Run(repos, gitOk, existing).present {
        if i < n {
          assert repos[..n][i] == repos[i] && gitOk[..n][i] == gitOk[i];
        }
      }
    }
  }

  /** The real run of `main` (clone_lexibank.py:236-260): every repository
      is processed, and the exit status is 1 exactly when one failed. */
  method Synchronize(repos: seq<Repository>, existing: set<string>, gitOk: seq<bool>)
    returns (stats: Stats, exitCode: int)
    requires |gitOk| == |repos|
    ensures stats == Run(repos, gitOk, existing).stats
    ensures stats.cloned + stats.updated + stats.failed == |repos|
    ensures stats.failed == Failures(gitOk)
    ensures exitCode == (if stats.failed > 0 then 1 else 0)
  {
    stats := Stats(0, 0, 0);
    var present := existing;
    for i := 0 to |repos|
      invariant Run(repos[..i], gitOk[..i], existing) == Sync(stats, present)
    {
      assert repos[..i + 1][..i] == repos[..i] && gitOk[..i + 1][..i] == gitOk[..i];
      var rep := repos[i];
      var (_, action) := ProcessRepository(rep.name in present, gitOk[i]);
      match action {
        case Cloned =>
          stats := stats.(cloned := stats.cloned + 1);
          present := present + {rep.name};
        case Updated =>
          stats := stats.(updated := stats.updated + 1);
        case Failed =>
          stats := stats.(failed := stats.failed + 1);
      }
    }
    assert repos[..|repos|] == repos && gitOk[..|gitOk|] == gitOk;
    RunFailures(repos, gitOk, existing);
    exitCode := if stats.failed > 0 then 1 else 0;
  }

  /** The dry run (clone_lexibank.py:223-229): the action each repository
      would get, judged from the directories present beforehand. */
  function Plan(repos: seq<Repository>, existing: set<string>): (r: seq<string>)
    ensures |r| == |repos|
    ensures forall i :: 0 <= i < |repos| ==> r[i] == (if repos[i].name in existing then "update" else "clone")
    decreases |repos|
  {
    if repos == [] then []
    else Plan(repos[..|repos| - 1], existing) + [if repos[|repos| - 1].name in existing then "update" else "clone"]
  }

  /** How often `action` occurs in a plan. */
  function Occurrences(plan: seq<string>, action: string): (n: nat)
    ensures n <= |plan|
    decreases |plan|
  {
    if plan == [] then 0
    else Occurrences(plan[..|plan| - 1], action) + if plan[|plan| - 1] == action then 1 else 0
  }

  /** The names of the repositories. */
  function Names(repos: seq<Repository>): (names: set<string>)
    ensures forall i :: 0 <= i < |repos| ==> repos[i].name in names
    decreases |repos|
  {
    if repos == [] then {} else Names(repos[..|repos| - 1]) + {repos[|repos| - 1].name}
  }

  lemma {:induction false} NamesListed(repos: seq<Repository>, x: string)
    requires x in Names(repos)
    ensures exists i :: 0 <= i < |repos| && repos[i].name == x
    decreases |repos|
  {
    var n := |repos| - 1;
    if x != repos[n].name {
      NamesListed(repos[..n], x);
      var i :| 0 <= i < n && repos[..n][i].name == x;
      assert repos[i] == repos[..n][i];
    }
  }

  /** When every git call succeeds and no name is listed twice, the real
      run does what the dry run announced: it updates the repositories
      planned for update, clones the ones planned for clone, and ends with
      every repository's directory present. */
  lemma {:induction false} PlanMatchesRun(repos: seq<Repository>, existing: set<string>)
    requires forall i, j :: 0 <= i < j < |repos| ==> repos[i].name != repos[j].name
    ensures var s := Run(repos, seq(|repos|, _ => true), existing);
      && s.stats.failed == 0
      && s.stats.updated == Occurrences(Plan(repos, existing), "update")
      && s.stats.cloned == Occurrences(Plan(repos, existing), "clone")
      && s.present == existing + Names(repos)
    decreases |repos|
  {
    var allOk := seq(|repos|, _ => true);
    if repos != [] {
      var n := |repos| - 1;
      var prefix := repos[..n];
      assert allOk[..n] == seq(n, _ => true);
      forall i, j | 0 <= i < j < |prefix| ensures prefix[i].name != prefix[j].name {
        assert prefix[i] == repos[i] && prefix[j] == repos[j];
      }
      PlanMatchesRun(prefix, existing);
      assert repos[n].name !in Names(prefix) by {
        if repos[n].name in Names(prefix) {
          NamesListed(prefix, repos[n].name);
        }
      }
      var plan := Plan(repos, existing);
      assert plan[..n] == Plan(prefix, existing);
    }
  }
}
