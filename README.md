# Arca Verborum merge and release logic in Dafny

Arca Verborum is a corpus built from the Lexibank CLDF datasets. Three
scripts produce it:

- `clone_lexibank.py` reads `datasets.csv`, keeps the rows of the requested
  collection (all, `CORE` or `CORECOG`), clones each repository that is
  absent, pulls each one that is present, tallies the outcomes and exits
  with status 1 when any git call failed.
- `merge_cldf_datasets.py` discovers every dataset directory holding a
  `cldf/cldf-metadata.json`. It processes the datasets one at a time in
  sorted order: it loads `forms.csv`, `languages.csv`, `parameters.csv` and
  (when present) `cognates.csv`, namespaces every identifier and citation
  key with `"{dataset}_"`, folds the cognate judgements into the forms'
  `Cognacy`, joins Glottolog and Concepticon metadata onto the forms, and
  projects the three tables on the corpus schema. It then streams them into
  the three corpus files, writing the header only for the first dataset in
  the sorted list. A `ValidationAccumulator` keeps running counts for the
  validation report. A dataset that raises is skipped. At the end the
  non-blank bibliographies are joined into `sources.bib`.
- `prepare_release.py` reads the report back into template statistics,
  formats numbers and catalogue-version ranges, and names the
  `arcaverborum.L.collection.D.zip` archives and their entries. It keys
  checksums by file name and keeps the record of past releases in
  `.zenodo_state.json`.

The model keeps each script's structure:

- **Pure steps are functions on values:**
  - pandas frames are a column list plus rows of cells, where a cell is
    NA, a text or a boolean;
  - JSON documents are datatypes;
  - `str.split`, `str.join`, `str.strip` and `sorted` are defined with
    Python's meaning; `str.strip` removes every character `str.isspace`
    accepts, the Unicode spaces above U+00FF included.
- **Loops that update locals are methods with invariants**, proved
  against those functions (`extract_metadata`, `extract_references`,
  `ensure_columns`, `compute_checksums`, `read_datasets`, the version
  histogram of `generate_report`).
- **Objects whose fields change are classes:**
  - `ValidationAccumulator`;
  - the output directory, as a map from file name to its lines;
  - the release state.

File system contents, git outcomes, hash digests and the text of
`sources.bib` are inputs to the operations that use them.

Modules:

| module | file | models |
|---|---|---|
| `Wrappers` | `wrappers.dfy` | `Option` and `Result` |
| `Text` | `text.dfy` | `str` operations and string order |
| `Tables` | `tables.dfy` | the pandas operations the merger uses |
| `Namespace` | `namespace.dfy` | identifier and citation-key prefixing |
| `Loader` | `loader.dfy` | the four table loaders |
| `Metadata` | `metadata.dfy` | the metadata and reference extractors |
| `Cognates` | `cognates.dfy` | `merge_cognate_data` and `combine_cognacy` |
| `Joins` | `joins.dfy` | the language and concept joins |
| `Pipeline` | `pipeline.dfy` | `process_dataset` |
| `Integrity` | `integrity.dfy` | `validate_referential_integrity` |
| `Accumulator` | `accumulator.dfy` | `ValidationAccumulator` |
| `Corpus` | `corpus.dfy` | the streaming CSV writer and `main` |
| `Clone` | `clone.dfy` | `clone_lexibank.py` |
| `Release` | `release.dfy` | `prepare_release.py` |

Where the code and its documentation disagree, the model follows the code:

- **Where a dataset's header goes.** The documentation says every output
  file starts with one header. The code writes a header only when
  `i == 1` (merge_cldf_datasets.py:1057), i.e. when the dataset is first in
  the sorted list. If that dataset fails, no file receives a header.
  `Corpus.StreamedHeader` states this exactly.
- **Namespacing across datasets.** Namespaced identifiers are described as
  globally unique. They are unique only within a dataset, or across
  datasets whose names contain no `_`.
  - `Namespace.PrefixedAcrossDatasets` proves uniqueness under that
    condition.
  - `Namespace.PrefixedCollision` exhibits the overlap (`a` + `b_c` and
    `a_b` + `c`).
- **Empty identifiers.** An empty identifier is not NA after loading. The
  code prefixes it before empty strings become NA, so it becomes
  `"{dataset}_"` (`Loader.EmptyIdBecomesPrefix`).
- **GroupBy `'first'`.** `'first'` takes the first non-NA value of the group,
  not the first row's value (`Cognates.FirstNonNull`).
- **A short row in `datasets.csv`.** `csv.DictReader` gives `None` for a
  column a short row cannot fill. The script then calls `None.strip()`,
  raises, and exits with status 1 instead of skipping the row
  (`Clone.ParseRowOk`).
- **A dataset without `cldf-metadata.json`.** The documentation lists such
  a dataset among the skipped ones. The code never discovers it: `main`
  only collects the directories holding that file
  (merge_cldf_datasets.py:1020-1023), so it appears neither in the report
  nor in the skip list (`Corpus.Discover`).
- **An empty `forms.csv` with a `Cognacy` column and a `cognates.csv`.**
  The merge is meant to populate the cognate columns. For a forms frame
  without rows, `DataFrame.apply(axis=1)` returns the empty frame itself.
  Assigning that frame to the single column `Cognacy` raises ValueError
  (merge_cldf_datasets.py:632-640), so the dataset is skipped
  (`Cognates.MergeCognateDataEmpty`).

## Model

| member | source | states |
|---|---|---|
| Text.Strip | merge_cldf_datasets.py:75 | `str.strip` never lengthens a string |
| Text.StripBlank | clone_lexibank.py:137-138 | stripping leaves nothing iff the text is all whitespace; otherwise the result neither starts nor ends with whitespace |
| Text.StripSlice | clone_lexibank.py:137-140 | the stripped text is a contiguous stretch of the original, and what is cut off on both sides is whitespace only |
| Text.Split | merge_cldf_datasets.py:75 | `str.split` on one character never returns an empty list |
| Text.JoinSplit | merge_cldf_datasets.py:75-77 | joining the pieces of a split restores the string |
| Text.SplitJoin | merge_cldf_datasets.py:599 | splitting a join gives back the parts when no part holds the separator |
| Text.SplitPiecesFree | merge_cldf_datasets.py:75 | no piece of a split holds the separator |
| Text.SplitConcat | merge_cldf_datasets.py:653-660 | splitting `a;b` gives the pieces of `a` then those of `b` |
| Text.SplitCount | prepare_release.py:263-264 | a split has one piece more than the text has separators |
| Text.AfterLast | merge_cldf_datasets.py:384-386 | `split(c)[-1]` is the suffix after the last `c`, free of `c`, or the whole text when `c` is absent |
| Text.ReplaceChar | prepare_release.py:203 | `replace` of one character changes exactly the occurrences of that character, length kept |
| Text.CountChar | prepare_release.py:148 | `count` is at most the length, and zero iff the character is absent |
| Text.Sort | merge_cldf_datasets.py:1042 | `sorted` yields an ascending permutation of its input |
| Text.Ordered | merge_cldf_datasets.py:1042 | `sorted` of a set lists each element once, strictly ascending |
| Text.OrderedDistinct | merge_cldf_datasets.py:1042 | the sorted dataset names hold no name twice |
| Text.Least | prepare_release.py:185-187 | the element `sorted(s)[0]` denotes is the least of a non-empty set |
| Text.Greatest | prepare_release.py:185-188 | the element `sorted(s)[-1]` denotes is the greatest of a non-empty set |
| Text.ExtremesExist | prepare_release.py:185-188 | every non-empty set of strings has a least and a greatest element |
| Tables.Column | merge_cldf_datasets.py:254-258 | `df[c]` has one cell per row, each the row's value in `c` |
| Tables.SetColumn | merge_cldf_datasets.py:452-460 | `df[c] = values` replaces or appends `c`, sets each row's cell, and changes no other cell |
| Tables.DropColumn | merge_cldf_datasets.py:686-687 | `drop(columns=[c])` removes `c` and only `c`, keeping every row and every other cell |
| Tables.Present | merge_cldf_datasets.py:675 | the list comprehension keeps exactly the listed names the frame has, in order, distinct |
| Tables.Select | merge_cldf_datasets.py:142 | `df[cols]` has exactly the columns `cols`, in order, every row of the frame, and each selected cell unchanged |
| Tables.Reindex | merge_cldf_datasets.py:137-142 | the projection has exactly `cols`, in order, every row, and each kept cell unchanged |
| Tables.EnsureColumns | merge_cldf_datasets.py:129-142 | the loop adding NA columns followed by `df[expected]` equals the projection on `expected` |
| Tables.ReindexSchema | merge_cldf_datasets.py:129-142 | schema projection: declared columns in order, same row count, old values kept, NA in added columns |
| Tables.AddedColumnReadsSame | merge_cldf_datasets.py:138-139 | adding an NA column changes no reading of a well-formed frame |
| Tables.NullEmpty | merge_cldf_datasets.py:471-473 | `replace('', pd.NA)` outside `keep` turns exactly the empty strings into NA |
| Tables.NonNullCount | merge_cldf_datasets.py:254 | `notna().sum()` is at most the row count |
| Tables.NonNullCountPositive | merge_cldf_datasets.py:261 | `notna().any()` holds iff `notna().sum()` is positive |
| Tables.NullCount | merge_cldf_datasets.py:274 | `isna().sum()` plus `notna().sum()` is the row count |
| Tables.NonNullValues | merge_cldf_datasets.py:795-800 | `set(df[c].dropna())` holds exactly the non-NA values of the column |
| Tables.Appended | merge_cldf_datasets.py:626 | the columns a left merge appends are right columns, suffixed when the left frame has the name, and exclude the shared key |
| Tables.AppendedCovers | merge_cldf_datasets.py:626 | every right column but a shared key is appended |
| Tables.AppendedDistinct | merge_cldf_datasets.py:626 | appended names are distinct when no right name ends with the suffix |
| Tables.AppendedAvoidsOwn | merge_cldf_datasets.py:626 | no appended name clashes with a left column that does not end with the suffix |
| Tables.AppendedOwnIndex | merge_cldf_datasets.py:626 | a right column the left frame lacks is appended under its own name |
| Tables.LeftMerge | merge_cldf_datasets.py:677-683 | `how='left'` never loses a left row (the missing-key KeyError is modelled by its callers) |
| Tables.FindKey | merge_cldf_datasets.py:677-683 | the first right row with the key, or none iff no row has it |
| Tables.MatchesUnique | merge_cldf_datasets.py:677-683 | with unique right keys a row matches its one partner or nothing |
| Tables.MergeRowsUnique | merge_cldf_datasets.py:677-683 | with unique right keys the merge keeps every left row exactly once, in order, extended with its partner |
| Tables.ExtendGet | merge_cldf_datasets.py:677-683 | an appended column holds the partner's value (NA without partner); other columns keep the left value |
| Tables.LeftMergeUnique | merge_cldf_datasets.py:677-683 | a left merge onto unique keys: same rows in order, own columns unchanged, appended columns from the partner |
| Namespace.PrefixedReadsBack | merge_cldf_datasets.py:126 | the identifier is recovered from its namespaced form |
| Namespace.PrefixedInjective | merge_cldf_datasets.py:126 | within one dataset distinct identifiers stay distinct |
| Namespace.PrefixedAcrossDatasets | merge_cldf_datasets.py:126 | across datasets whose names hold no `_`, namespaced identifiers never collide |
| Namespace.PrefixedCollision | merge_cldf_datasets.py:126 | with `_` in dataset names two datasets can produce the same namespaced identifier |
| Namespace.PrefixId | merge_cldf_datasets.py:126 | NA stays NA; any other cell becomes `"{dataset}_" + str(x)` |
| Namespace.PrefixIds | merge_cldf_datasets.py:124-126 | the column keeps its length and each cell is prefixed |
| Namespace.PrefixIdsReadsBack | merge_cldf_datasets.py:124-126 | NA stays in place and every original value is read back from its cell |
| Namespace.PrefixIdsKeepsDistinct | merge_cldf_datasets.py:124-126 | distinct identifiers of a column stay distinct |
| Namespace.CitationKeys | merge_cldf_datasets.py:75-76 | the keys are the stripped pieces with the empty ones dropped |
| Namespace.CitationKeysCount | merge_cldf_datasets.py:75-76 | there is one key per non-blank piece |
| Namespace.PrefixBibtexKeys | merge_cldf_datasets.py:64-77 | NA and `""` come back unchanged; any other value becomes text |
| Namespace.PrefixBibtexKeysSpec | merge_cldf_datasets.py:64-77 | splitting the result on `;` gives exactly one prefixed key per non-blank input key, in order; an all-blank value gives `""` |
| Loader.Raw | merge_cldf_datasets.py:448 | `read_csv(dtype=str, keep_default_na=False)` keeps the header and every record as text |
| Loader.NonEmpty | merge_cldf_datasets.py:496-498 | `''` becomes NA and nothing else changes |
| Loader.BoolCell | merge_cldf_datasets.py:468 | exactly `true` and `false` become booleans; anything else is NA |
| Loader.SourceCell | merge_cldf_datasets.py:464 | the `if x else ''` guard leaves the empty string empty |
| Loader.PrefixColumn | merge_cldf_datasets.py:455-460 | prefixing a column that exists rewrites only that column |
| Loader.MapColumn | merge_cldf_datasets.py:463-468 | mapping a column that exists rewrites only that column |
| Loader.AddDataset | merge_cldf_datasets.py:452 | `df['Dataset'] = dataset` fills every row and appends the column when it is new |
| Loader.LoadForms | merge_cldf_datasets.py:435-475 | a missing file raises; otherwise one row per record and the file's own header |
| Loader.LoadFormsCells | merge_cldf_datasets.py:443-475 | every cell of the loaded forms: identifiers namespaced, citation keys prefixed, `Loan` mapped, empty text NA, `Dataset` added last when absent |
| Loader.EmptyIdBecomesPrefix | merge_cldf_datasets.py:455-473 | an empty `ID` becomes `"{dataset}_"`, not NA |
| Loader.LoadLanguages | merge_cldf_datasets.py:478-505 | a missing file raises; otherwise one row per record |
| Loader.LoadLanguagesCells | merge_cldf_datasets.py:480-505 | every cell of the loaded languages: `ID` namespaced, empty text NA, coordinates only where non-empty |
| Loader.LoadParameters | merge_cldf_datasets.py:508-529 | a missing file raises; otherwise one row per record |
| Loader.LoadParametersCells | merge_cldf_datasets.py:510-529 | every cell of the loaded parameters: `ID` namespaced, empty text NA |
| Loader.LoadCognates | merge_cldf_datasets.py:532-565 | no frame iff the file is absent; otherwise the file's columns, no `Dataset`, one row per record |
| Loader.LoadCognatesCells | merge_cldf_datasets.py:540-565 | every cell of the loaded judgements: `Form_ID` and `Cognateset_ID` namespaced, keys prefixed, `Doubt` mapped, empty text NA |
| Loader.TrackColumnPresence | merge_cldf_datasets.py:145-153 | one entry per frame column, true iff the column was in the file |
| Loader.LoadedFormsPresence | merge_cldf_datasets.py:449-452 | after loading forms every file column is marked present and an added `Dataset` is not |
| Loader.LoadFormsColumns | merge_cldf_datasets.py:449-452 | the loaded forms have the file's columns with `Dataset` added last when absent |
| Metadata.LastOfKind | merge_cldf_datasets.py:363-369 | the index of the last table of a kind, none iff there is none |
| Metadata.LastTitled | merge_cldf_datasets.py:375-381 | the index of the last provenance item with a title, none iff there is none |
| Metadata.CldfModule | merge_cldf_datasets.py:383-386 | the module name holds no `#` and is the text after the last `#` of `dc:conformsTo` |
| Metadata.ExtractMetadata | merge_cldf_datasets.py:350-401 | the counts come from the last table of each kind, the versions from the last matching items, the text fields default to `""`, and `Has_Cognates` starts false |
| Metadata.CountTables | merge_cldf_datasets.py:363-369 | the loop leaves each count at the extent of the last table of its kind |
| Metadata.LastCreated | merge_cldf_datasets.py:375-377 | the loop leaves the `dc:created` of the last item with the title |
| Metadata.LastDescription | merge_cldf_datasets.py:379-381 | the loop leaves the `dc:description` of the last item with the title |
| Metadata.ExtractReferences | merge_cldf_datasets.py:404-430 | each catalogue version is the `dc:created` of the last item titled after it |
| Metadata.CreatedOfAppend | merge_cldf_datasets.py:416-423 | the last match wins: a later item with the title overrides every earlier one |
| Metadata.ExtentOfKindAppend | merge_cldf_datasets.py:363-369 | a later table of the same kind overrides the extent |
| Metadata.FormTableFirst | merge_cldf_datasets.py:364-369 | a table counts under one kind only, the form kind first |
| Cognates.CombineCognacy | merge_cldf_datasets.py:651-660 | NA iff both inputs are NA |
| Cognates.CombineCognacyCases | merge_cldf_datasets.py:651-660 | the four cases: NA, inline alone, judged alone, or inline `;` judged |
| Cognates.CombineCognacySplit | merge_cldf_datasets.py:651-660 | splitting the combined value lists the inline sets then the judged ones |
| Cognates.NonNullTexts | merge_cldf_datasets.py:599 | `dropna()` is empty iff every value is NA |
| Cognates.JoinNonNullSplit | merge_cldf_datasets.py:599 | the joined sets split back on `;` into the non-NA sets in order |
| Cognates.FirstNonNull | merge_cldf_datasets.py:604-614 | `'first'` is NA iff every value is NA |
| Cognates.FirstNonNullIsFirst | merge_cldf_datasets.py:604-614 | `'first'` is a value of the group preceded only by NA |
| Cognates.FirstColumns | merge_cldf_datasets.py:603-623 | the optional columns aggregated are exactly those the judgements have, renamed |
| Cognates.AggregateColumnsShape | merge_cldf_datasets.py:616-623 | the aggregate's columns are distinct and none ends with `_drop` |
| Cognates.FormKeys | merge_cldf_datasets.py:616 | the groups are exactly the non-NA `Form_ID` values |
| Cognates.Aggregate | merge_cldf_datasets.py:597-623 | KeyError iff `Form_ID` or `Cognateset_ID` is missing; otherwise the aggregate has the renamed columns |
| Cognates.AggregateUnique | merge_cldf_datasets.py:616 | the aggregate has one row per form, so its `ID` values are unique |
| Cognates.AggregateRows | merge_cldf_datasets.py:616 | one aggregate row per form identifier, in sorted order |
| Cognates.AggregatePartner | merge_cldf_datasets.py:616-626 | a form's partner is the aggregate of its judgements, present iff a judgement names it |
| Cognates.Undropped | merge_cldf_datasets.py:629 | the comprehension keeps exactly the columns not ending with `_drop` |
| Cognates.Kept | merge_cldf_datasets.py:626-629 | the merge with `_drop` columns removed loses no form |
| Cognates.KeptAppended | merge_cldf_datasets.py:626-629 | a right column the forms lack keeps its name and survives the `_drop` removal |
| Cognates.KeptOwn | merge_cldf_datasets.py:626-629 | a form column not ending with `_drop` is untouched by the merge |
| Cognates.MergeCognateData | merge_cldf_datasets.py:570-648 | without judgements the row count is kept; with judgements an empty forms table with a `Cognacy` column raises ValueError; a success loses no form |
| Cognates.MergeJudgedCognacy | merge_cldf_datasets.py:632-640 | with judgements a form's `Cognacy` is its own set, namespaced, then its judged sets |
| Cognates.MergeOwnColumn | merge_cldf_datasets.py:626-629 | with judgements a form's own columns keep their values |
| Cognates.MergeFirstColumn | merge_cldf_datasets.py:604-626 | an optional judgement column the forms lack holds the first value recorded for the form |
| Cognates.MergeCognateDataCells | merge_cldf_datasets.py:570-648 | every form keeps its place and its own columns; `Cognacy` combines inline and judged sets; missing key columns raise |
| Cognates.MergeCognateDataEmpty | merge_cldf_datasets.py:570-641 | on an empty forms table the merge fails iff there are judgements and the aggregation fails, `ID` is missing, or a `Cognacy` column is present |
| Joins.JoinMetadata | merge_cldf_datasets.py:675-687 | KeyError iff the right frame has no `ID` or the forms lack the foreign key; no form is lost |
| Joins.JoinLanguageMetadata | merge_cldf_datasets.py:665-689 | KeyError iff `languages` has no `ID` or the forms no `Language_ID`; no form is lost |
| Joins.JoinParameterMetadata | merge_cldf_datasets.py:692-715 | KeyError iff `parameters` has no `ID` or the forms no `Parameter_ID`; no form is lost |
| Joins.SelectedColumns | merge_cldf_datasets.py:675 | the projection holds `ID` and every wanted column the right frame has, and nothing else |
| Joins.JoinMetadataCells | merge_cldf_datasets.py:675-689 | on unique keys: each form keeps its place and own columns; wanted columns come from the row whose `ID` is the foreign key, NA if none; the suffixed `ID` is gone |
| Joins.JoinLanguageMetadataKeeps | merge_cldf_datasets.py:665-689 | on unique language keys each form keeps its place and own columns, and `ID_lang` is gone |
| Joins.JoinLanguageMetadataLooksUp | merge_cldf_datasets.py:674-683 | each form gets its language's `Glottocode` and `Glottolog_Name`, NA when the language is unknown |
| Joins.JoinParameterMetadataKeeps | merge_cldf_datasets.py:692-715 | on unique concept keys each form keeps its place and own columns, and `ID_param` is gone |
| Joins.JoinParameterMetadataLooksUp | merge_cldf_datasets.py:701-709 | each form gets its concept's `Concepticon_ID` and `Concepticon_Gloss` |
| Pipeline.ProcessTables | merge_cldf_datasets.py:742-767 | a missing core file raises; the forms are projected on the schema and lose no row; languages keep one row per record |
| Pipeline.ProcessDataset | merge_cldf_datasets.py:720-774 | succeeds iff the metadata file exists and the tables load; the metadata row is exactly the extracted one (title, citation, URL, license, module, versions, the three counts) with `Has_Cognates` true iff a cognate table exists; the references row is exactly the extracted one; the tables are those of `ProcessTables` |
| Pipeline.LanguageIdsUnique | merge_cldf_datasets.py:491-492 | namespacing keeps distinct language identifiers distinct |
| Pipeline.ParameterIdsUnique | merge_cldf_datasets.py:521-522 | namespacing keeps distinct concept identifiers distinct |
| Pipeline.MergeKeepsCount | merge_cldf_datasets.py:758 | the cognate merge keeps the number of forms |
| Pipeline.LanguageJoinKeepsCount | merge_cldf_datasets.py:761 | the language join keeps the number of forms on unique keys |
| Pipeline.ParameterJoinKeepsCount | merge_cldf_datasets.py:762 | the concept join keeps the number of forms on unique keys |
| Pipeline.ProcessTablesKeepsForms | merge_cldf_datasets.py:742-765 | with distinct language and concept identifiers the output has exactly as many forms as `forms.csv` has records |
| Pipeline.ProcessTablesFormCells | merge_cldf_datasets.py:742-765 | with distinct language and concept identifiers the `k`-th output form is the `k`-th record of `forms.csv`: its namespaced `ID`, its dataset, and every other schema column the file has except `Cognacy`, as loaded |
| Integrity.ValidateReferentialIntegrity | merge_cldf_datasets.py:779-814 | KeyError iff a read column is missing; missing-metadata counts plus non-null counts equal the forms; orphan counts are bounded by the foreign keys |
| Integrity.OrphanMembership | merge_cldf_datasets.py:799-803 | a value is an orphan iff some form carries it and no row has it as `ID` |
| Integrity.NoOrphansIffResolves | merge_cldf_datasets.py:802-803 | zero orphans iff every non-null foreign key resolves |
| Integrity.ReportIntegrity | merge_cldf_datasets.py:809-814 | the reported orphan counts are zero iff every form's language and concept resolve |
| Accumulator.CountVersion | merge_cldf_datasets.py:306-311 | a version's count is bounded by the references and zero iff no reference names it |
| Accumulator.NullCountsEntry | merge_cldf_datasets.py:270-275 | entries exist for exactly the tracked columns the forms have; each count is the forms minus the filled ones |
| Accumulator.CognateCount | merge_cldf_datasets.py:250-251 | datasets with cognates never exceed the datasets |
| Accumulator.TalliesStep | merge_cldf_datasets.py:306-311 | bumping for one more reference keeps the histogram exact |
| Accumulator.CountDataset | merge_cldf_datasets.py:244-251 | each row counter grows by its table's rows; datasets by one; cognate datasets iff `Has_Cognates` |
| Accumulator.CountCoverage | merge_cldf_datasets.py:253-267 | each coverage counter grows by its column's non-null count |
| Accumulator.CountCoverageWithin | merge_cldf_datasets.py:253-267 | coverage never exceeds the forms seen |
| Accumulator.VersionDistribution | merge_cldf_datasets.py:300-311 | each catalogue's histogram counts exactly the references naming each non-empty version |
| Accumulator.UpdateConsistent | merge_cldf_datasets.py:229-291 | one update keeps one small-table entry per dataset, the cognate counter equal to the flagged metadata, each partial-cognacy list no longer than the datasets, and coverage within the forms |
| Accumulator.ValidationAccumulator.constructor | merge_cldf_datasets.py:200-227 | every counter zero and every list and map empty |
| Accumulator.ValidationAccumulator.Update | merge_cldf_datasets.py:229-291 | the new state is the counted, flagged and appended old state, with the dataset's completeness entry; as one value, the contents are `Updated` of the old contents |
| Accumulator.ValidationAccumulator.GenerateReport | merge_cldf_datasets.py:293-345 | the report of the contents (`ReportOf`): the summary copies the counters; quality exists iff a form was seen and is bounded by the forms; histograms are exact; the rest is copied |
| Corpus.Records | merge_cldf_datasets.py:166 | `to_csv(index=False)` writes one record per row with one cell per column |
| Corpus.AppendCsv | merge_cldf_datasets.py:156-166 | a first write replaces the file with the header and the records; any other appends records only |
| Corpus.OutputDirectory.InitializeOutputFiles | merge_cldf_datasets.py:169-183 | the three corpus files are removed and nothing else changes |
| Corpus.OutputDirectory.AppendToCsv | merge_cldf_datasets.py:156-166 | only the named file changes |
| Corpus.OutcomeOf | merge_cldf_datasets.py:1043-1071 | a dataset is kept iff `process_dataset` returns, under its own name, with its bibliography and its `Has_Cognates` flag |
| Corpus.Failed | merge_cldf_datasets.py:1066-1070 | the skip list holds only listed datasets |
| Corpus.KeptOrFailed | merge_cldf_datasets.py:1042-1071 | every dataset is either counted or skipped |
| Corpus.StreamedHeader | merge_cldf_datasets.py:1056-1060 | a file has a header iff the first dataset in sorted order is kept |
| Corpus.StreamedSchema | merge_cldf_datasets.py:1056-1060 | the header, when present, names the file's schema |
| Corpus.StreamedBody | merge_cldf_datasets.py:1042-1071 | below the header each file holds every kept dataset's records, in sorted order, once |
| Corpus.WrittenStep | merge_cldf_datasets.py:1056-1060 | one dataset's appends extend the stream and leave other files alone |
| Corpus.Keep | merge_cldf_datasets.py:1047-1060 | a returned dataset is recorded by `update` with everything `process_dataset` returned, and its tables appended (header iff `i == 1`); a raised one records and writes nothing |
| Corpus.MergeOne | merge_cldf_datasets.py:1042-1071 | one loop turn extends the outcomes, records the outcome in the accumulator, and writes its tables |
| Corpus.MergeDatasets | merge_cldf_datasets.py:1040-1071 | after the loop: skip list = failed datasets; accumulator = its old contents plus the kept datasets' totals, coverage, rows, flags and completeness entries; files = streamed outcomes |
| Corpus.KeptCognates | merge_cldf_datasets.py:250-251 | the kept datasets with cognate tables never outnumber the kept datasets |
| Corpus.KeptNonNull | merge_cldf_datasets.py:253-267 | no coverage figure exceeds the kept forms |
| Corpus.KeptMetadata | merge_cldf_datasets.py:288 | one metadata row per kept dataset |
| Corpus.KeptReferences | merge_cldf_datasets.py:289 | one references row per kept dataset |
| Corpus.KeptTracking | merge_cldf_datasets.py:291 | one column-tracking record per kept dataset |
| Corpus.KeptFlagged | merge_cldf_datasets.py:260-267 | the partial-cognacy lists hold only kept datasets and are no longer than the kept datasets |
| Corpus.KeptCompleteness | merge_cldf_datasets.py:277-284 | completeness has an entry for exactly the kept datasets |
| Corpus.AccumulatedKept | merge_cldf_datasets.py:1042-1071 | the fold of `update` over the loop equals the sum over the kept datasets; a skipped dataset contributes nothing |
| Corpus.AccumulatedCounters | merge_cldf_datasets.py:244-267 | after the loop every counter is its start plus the kept datasets' figures |
| Corpus.AccumulatedLists | merge_cldf_datasets.py:288-291 | after the loop each list is its start followed by the kept datasets' rows in sorted order |
| Corpus.AccumulatedFlags | merge_cldf_datasets.py:260-267 | after the loop each partial-cognacy list is its start followed by the kept datasets with values in that column |
| Corpus.AccumulatedCompleteness | merge_cldf_datasets.py:277-284 | after the loop completeness holds the kept datasets' entries |
| Corpus.SummedReport | merge_cldf_datasets.py:1079-1097 | the report of a fresh accumulator after the loop is the report of the kept outcomes |
| Corpus.AllRecordsCount | merge_cldf_datasets.py:1056-1060 | each file's record lines number exactly the rows the report totals for it |
| Corpus.NonBlank | merge_cldf_datasets.py:953 | kept bibliographies are the non-blank ones |
| Corpus.MergedBibtexAppend | merge_cldf_datasets.py:953 | a blank bibliography changes nothing; another is appended after a blank line or stands alone |
| Corpus.MergedBibtexEmpty | merge_cldf_datasets.py:953 | the merged bibliography is empty iff every one is blank |
| Corpus.Discover | merge_cldf_datasets.py:1020-1023 | exactly the directories holding a metadata file are discovered |
| Corpus.MergeNamed | merge_cldf_datasets.py:1036-1104 | every dataset is counted or skipped; the report, metadata rows and references rows are those of the kept datasets only (`Reported`); files and bibliography are written iff not a dry run |
| Corpus.MergeCorpus | merge_cldf_datasets.py:1015-1104 | exit 1 iff the input is missing or has no datasets; otherwise the sorted merge, whose report, metadata rows and references rows are those of the kept datasets (`Reported`) |
| Clone.Field | clone_lexibank.py:137-140 | an absent column reads `""`; a short row's `None` raises |
| Clone.FieldsOk | clone_lexibank.py:137-140 | the four fields read iff each reads, with their values |
| Clone.ParseRowValues | clone_lexibank.py:137-140 | a readable row yields its four stripped values |
| Clone.ParseRowOk | clone_lexibank.py:136-169 | a row is read unless a column is present but unfilled |
| Clone.ParseRowFlags | clone_lexibank.py:139-140 | a flag is set iff its stripped text is exactly `TRUE` |
| Clone.ParseRowBlank | clone_lexibank.py:137-148 | name and URL are empty iff absent or blank |
| Clone.ParsedAt | clone_lexibank.py:136-140 | the i-th parse is the i-th row's |
| Clone.ReadDatasets | clone_lexibank.py:118-169 | a missing file is an error; otherwise the filtered rows |
| Clone.SelectedErrPersists | clone_lexibank.py:167-169 | once a row fails the whole read fails |
| Clone.SelectedOkIff | clone_lexibank.py:133-169 | the file reads iff every row does |
| Clone.SelectedKept | clone_lexibank.py:143-148 | every kept repository has a name and URL and belongs to the requested collections |
| Clone.SelectedSubsequence | clone_lexibank.py:136-154 | the result is the rows passing the filter, in order |
| Clone.ProcessRepository | clone_lexibank.py:95-115 | pull when present, clone otherwise; failed iff git failed |
| Clone.Run | clone_lexibank.py:240-248 | the three tallies sum to the repositories |
| Clone.RunFailures | clone_lexibank.py:242-248 | the failed tally is the number of failed git calls |
| Clone.RunPresent | clone_lexibank.py:242-248 | no directory is removed; each success leaves its directory |
| Clone.Synchronize | clone_lexibank.py:236-260 | stats are those of the run and the exit status is 1 iff something failed |
| Clone.Plan | clone_lexibank.py:227-233 | the dry run announces update iff the directory exists |
| Clone.PlanMatchesRun | clone_lexibank.py:227-248 | when git succeeds and names are distinct the run does what the dry run announced |
| Release.DecimalDigits | prepare_release.py:102 | decimal digits without leading zeros |
| Release.DigitsRoundTrip | prepare_release.py:102 | the digits read back as the number |
| Release.UngroupGroup | prepare_release.py:102 | removing the separators gives back the digits |
| Release.GroupCommas | prepare_release.py:102 | one comma per complete group of three after the first |
| Release.FormatNumber | prepare_release.py:95-102 | non-empty, with a leading minus iff negative |
| Release.FormatNumberRoundTrip | prepare_release.py:95-102 | parsing the formatted text gives back the number |
| Release.FormatNumberCommas | prepare_release.py:95-102 | the number of separators is (digits - 1) / 3 |
| Release.FormatNumberExample | prepare_release.py:100 | 2915515 formats as `2,915,515` |
| Release.OrderedFirst | prepare_release.py:185-187 | the first sorted version is the least |
| Release.OrderedLast | prepare_release.py:185-188 | the last sorted version is the greatest |
| Release.FormatVersionRange | prepare_release.py:176-188 | `unknown` for none, the version for one, least-greatest otherwise |
| Release.FormatVersionRangeIgnoresCounts | prepare_release.py:176-188 | only the set of versions matters |
| Release.Section | prepare_release.py:138-141 | a missing section is `{}`; a non-object section raises |
| Release.ExtractStatistics | prepare_release.py:130-173 | raises iff a section is not an object; the sources count is the number of `@` |
| Release.ExtractStatisticsDefaults | prepare_release.py:150-173 | an empty report gives zeros and empty distributions |
| Release.ExtractStatisticsReadsSummary | prepare_release.py:150-155 | a figure present in the summary is passed through |
| Release.ArchiveNames | prepare_release.py:261-272 | valid iff the version has one `.`; the names follow the scheme |
| Release.ArchiveNameSplits | prepare_release.py:269-272 | the archive name splits back into prefix, letter, collection, date and `zip` |
| Release.OutputEntries | prepare_release.py:280-286 | only present output files get entries |
| Release.DocEntries | prepare_release.py:289-292 | every document gets an entry |
| Release.CreateArchive | prepare_release.py:250-294 | an invalid version is refused; otherwise the name and entries as specified |
| Release.OutputEntriesUnder | prepare_release.py:282 | every output entry lies under the archive directory |
| Release.DocEntriesUnder | prepare_release.py:290 | every document entry lies under the archive directory |
| Release.OutputEntriesExact | prepare_release.py:280-286 | a present output file has its entry |
| Release.ChecksumKey | prepare_release.py:203 | the key has no `.`, keeps length, and keeps every other character |
| Release.ComputeChecksums | prepare_release.py:191-207 | the loop computes the checksum map of the existing files |
| Release.ChecksumsKeys | prepare_release.py:198-206 | the keys are exactly those of the existing files |
| Release.ChecksumsValue | prepare_release.py:198-206 | a file whose key no later file shares keeps its own digest |
| Release.ReleaseState.Load | prepare_release.py:105-109 | a missing state file is an empty record of releases |
| Release.ReleaseState.Check | prepare_release.py:541-551 | refused iff already released without `--force`; first release iff none before |
| Release.ReleaseState.Record | prepare_release.py:764-768 | the version becomes the last and its record is stored, others unchanged |
| Release.ReleaseState.Publish | prepare_release.py:541-551 | check then record; a refusal changes nothing |
| Release.PublishTwice | prepare_release.py:541-543 | releasing the same version twice without `--force` is refused, and no later release is a first one |

## Left out

- **Input and output.** File reading, JSON parsing and CSV parsing are
  outside the model: each file arrives as its parsed contents, or as absent.
  - Logging is left out.
  - Memory release (`del`, `gc.collect`) is left out.
  - The creation of directories is left out.
- **BibTeX parsing.** `prefix_bibtex_file` and `load_bibtex`
  (merge_cldf_datasets.py:80-121) use `bibtexparser` and a regular
  expression. Each dataset's bibliography arrives already prefixed.
- **Percentages.** Floating-point percentages and their rounding are left
  out (merge_cldf_datasets.py:275, 317-321). The model keeps the counts
  they are computed from.
- **Coordinates.** `pd.to_numeric(..., errors='coerce')` on
  `Latitude`/`Longitude` (merge_cldf_datasets.py:495-498) is left out.
  Coordinates are kept as their non-empty text.
- **Partition directories.** The removal of the legacy partition
  directories (merge_cldf_datasets.py:185-191) is left out; the output
  directory holds files only.
- `Accumulator.ValidationAccumulator.Update`: a counted column the forms
  lack reads as all-null, where pandas raises KeyError. Every caller passes
  forms projected on the full schema.
- **Unused by `main`.**
  - `track_column_presence` is modelled (`Loader.TrackColumnPresence`)
    but `main` never calls it.
  - `validate_referential_integrity` is modelled but `main` never calls it;
    the report says integrity is not validated.
- **Legacy report functions.** `calculate_quality_metrics` and
  `generate_validation_report` (merge_cldf_datasets.py:817-945) are not
  called by `main` and are left out.
- **Other writes.** The file formats of `validation_report.json`,
  `metadata.csv` and `references.csv` (merge_cldf_datasets.py:1089-1104)
  are left out. The report and the two row lists they are written from are
  modelled, and `Corpus.MergeNamed` states them (`Corpus.Reported`).
- **Release side effects.** `prepare_release.py` hashing (`sha256sum`),
  zip writing, templates (`render_template`), `update_metadata_file`,
  `create_git_tag`, `build_website`, `format_bytes`, `get_file_sizes`,
  `load_validation_report` and `save_state` are left out.
  - Their results (digests, sizes, file contents) are inputs.
  - The required-file check over `RELEASE_FILES` is left out.
- **The version split in `main`.** prepare_release.py:569-571 splits the
  version without checking its part count. It is not modelled separately:
  `create_archive`, which checks the count, is.
- **Other scripts.** `zenodo_publish.py` and `update_docs_doi.py` are not
  part of this model.
- **Git.** `clone_repository` and `update_repository`
  (clone_lexibank.py:33-92) run git. Whether each call succeeds is an input
  to `Clone.Synchronize`.
