# CIViC data builders and the molecular-profile annotator, in Dafny

This project models the core of the CIViC hackathon repository:

- the variant builder (`previous-builders/civic/build_civic.py`). It reads the
  monthly `VariantSummaries` snapshot and queries the CIViC GraphQL API for
  each variant. It lifts hg19 coordinates to hg38, summarises the evidence
  diseases, and fills the `civic` SQLite table, indexing it at the end;
- the gene builder (`previous-builders/civic_gene/build_civic_gene.py`). It
  does the same for the `GeneSummaries` snapshot and the `civic_gene` table,
  joining each gene's aliases;
- the civicpy export script (`get-civicpy-data.py`). It turns molecular
  profiles into flat records, one per variant that has both bases, each
  carrying the profile's accepted and submitted evidence counts;
- the CRAVAT annotator's `annotate`
  (`civic_molecular_profile/civic_molecular_profile.py`). It strips `chr`
  from the input chromosome and returns the profile fields of the first
  stored record with exactly that chromosome, start, reference and
  alternate base, or `None`.

Python's behaviour is modelled explicitly:

- `None` is the JSON `null`, `JNull`.
- An exception is `Err` of a `PyError` (`IndexError`, `KeyError`,
  `TypeError`, `NameError`).
- String order is Python's code-point order.
- `sorted(set(...))` is a strictly ascending list.
- `", ".join` and `str.replace("chr", "")` follow Python's definitions.

Modules:

| module | file | contents |
|---|---|---|
| `Wrappers` | wrappers.dfy | `Option`, `Result`, `PyError` |
| `Json` | json.dfy | JSON values, subscripting, `deep_get` |
| `PyStrings` | pystrings.dfy | str order, sorted sets, `join`, `split` on `,`, decimal digits |
| `Snapshot` | snapshot.dfy | the `01-Mon-YYYY` date and the snapshot URL |
| `TsvHeader` | tsv_header.dfy | the column-by-name header scan |
| `BuildLoop` | build_loop.dfy | the row loop both builders share: record, skip or exception |
| `CivicVariantBuild` | civic_variant.dfy | the variant builder |
| `CivicGeneBuild` | civic_gene.dfy | the gene builder |
| `CivicpyData` | civicpy_data.dfy | the civicpy export |
| `MolecularProfileAnnotator` | annotator.dfy | `annotate` |

The model reproduces these behaviours of the code, which a reader may not
expect:

- The variant builder's reference-build test (`build_civic.py:165`) is true
  for every value. So every variant goes through `normalize_position`. That
  function converts only `GRCH37`/`hg19`, so variants already on
  `GRCH38`/`hg38` are dropped, not stored unchanged (`CurrentBuildDropped`).
- A lifted variant's chromosome is whatever the liftover returned (for
  example `chr7`), not the chromosome of the API response (`EmittedRowIsLifted`).
- The stored id is the snapshot row's first field, not the `variant_id`
  column the API was queried with (`VariantRunSound`).
- There is no skip counter: `total` counts inserted rows.
- `get_diseases` of a missing evidence list raises, and that ends the run
  (`VariantDataFails`).

## Model

| member | source | states |
|---|---|---|
| Json.DeepGet | previous-builders/civic/build_civic.py:113-120 | definition of `deep_get`: subscript key by key, `None` at the first failing subscript; its properties are the four rows below |
| Json.Index | previous-builders/civic/build_civic.py:116-118 | subscripting succeeds exactly on an object that holds the key; otherwise it raises KeyError on an object and TypeError on anything else |
| Json.DeepGetConcat | previous-builders/civic/build_civic.py:113-120 | looking up a key path is looking up its prefix, then the rest from there |
| Json.DeepGetNest | previous-builders/civic/build_civic.py:113-120 | a value nested under a key path is found again by that path |
| Json.DeepGetMissing | previous-builders/civic/build_civic.py:113-120 | once a key is missing (or the value is not an object), the lookup yields `None` whatever keys follow |
| Json.DeepGetLoop | previous-builders/civic/build_civic.py:113-120 | the early-return loop computes the same value as the recursive definition |
| Json.Str | previous-builders/civic/build_civic.py:134 | the f-string rendering of the chromosome: a string renders as itself; an int renders as its decimal digits, with `-` exactly when negative, reading back as the value |
| PyStrings.NatToString | previous-builders/civic/build_civic.py:134 | `str(n)` is a non-empty string of decimal digits without a leading zero |
| PyStrings.NatToStringRoundTrip | previous-builders/civic/build_civic.py:134 | the digits of `str(n)` read back as `n` |
| PyStrings.Join | previous-builders/civic/build_civic.py:127 | definition of `sep.join(parts)`; its inverse is stated by `SplitJoin` |
| PyStrings.LessIrreflexive | previous-builders/civic/build_civic.py:126 | no string sorts before itself |
| PyStrings.LessTransitive | previous-builders/civic/build_civic.py:126 | str order is transitive |
| PyStrings.LessTotal | previous-builders/civic/build_civic.py:126 | any two distinct strings are ordered one way or the other |
| PyStrings.Insert | previous-builders/civic/build_civic.py:125-126 | inserting into a strictly sorted list keeps it strictly sorted, with exactly the old elements plus the new one |
| PyStrings.SortedSet | previous-builders/civic/build_civic.py:125-126 | `sorted(set(xs))` is strictly ascending and holds exactly the elements of `xs` |
| PyStrings.SortedUnique | previous-builders/civic/build_civic.py:125-126 | two strictly sorted lists with the same elements are equal, so the sorted set is unique |
| PyStrings.SplitJoin | previous-builders/civic_gene/build_civic_gene.py:100 | splitting a non-empty join on its separator gives the parts back, when no part contains the separator |
| Snapshot.FirstOfMonth | previous-builders/civic/build_civic.py:189-191 | `%d-%b-%Y` of the first of a month is 11 characters |
| Snapshot.FourDigitsRoundTrip | previous-builders/civic/build_civic.py:191 | the `%Y` field is four digits that read back as the year |
| Snapshot.FirstOfMonthRoundTrip | previous-builders/civic/build_civic.py:189-191 | the formatted date parses back to its year and month, with day `01` |
| Snapshot.SnapshotUrl | previous-builders/civic/build_civic.py:193 | the URL is the base, `/`, the date, `/`, the same date, `-`, the file name and `.tsv` |
| TsvHeader.LastIndex | previous-builders/civic/build_civic.py:208-210 | a column is found exactly when the name is in the header; the answer is a position holding that name, and no later position holds it |
| BuildLoop.HarvestRows | previous-builders/civic/build_civic.py:212-225 | a run inserts at most one record per data row |
| BuildLoop.HarvestRowsAppend | previous-builders/civic/build_civic.py:212-225 | a run over `a + b` is the run over `a` and, when `a` raised nothing, the run over `b` after it: records stay in row order |
| BuildLoop.HarvestRowsAppendOk | previous-builders/civic/build_civic.py:212-225 | when the first part raised nothing, the table after both parts is the first part's table followed by the second's |
| BuildLoop.HarvestRowsSound | previous-builders/civic/build_civic.py:221-225 | every inserted record is what the per-row step produced for some data row |
| BuildLoop.HarvestRowsComplete | previous-builders/civic/build_civic.py:221-225 | in a run that raised nothing, every row's step succeeded and every record it produced was inserted |
| BuildLoop.HarvestRowsNoSkip | previous-builders/civic_gene/build_civic_gene.py:125-137 | when no row is skipped and nothing was raised, record `i` is the step's result for row `i` |
| CivicVariantBuild.DiseaseNames | previous-builders/civic/build_civic.py:124-125 | the names are the string `disease.name`s of the entries; any name that is neither `None` nor a string raises TypeError |
| CivicVariantBuild.GetDiseases | previous-builders/civic/build_civic.py:122-127 | a non-iterable raises TypeError; an object or string gives `""`; a list succeeds exactly when every name is `None` or a string |
| CivicVariantBuild.GetDiseasesSorted | previous-builders/civic/build_civic.py:122-127 | the summary joins a strictly ascending, duplicate-free list holding exactly the names present |
| CivicVariantBuild.GetDiseasesEmpty | previous-builders/civic/build_civic.py:122-127 | evidence without names (an empty list among them) summarises to `""` |
| CivicVariantBuild.DiseaseNamesSameEntries | previous-builders/civic/build_civic.py:124-125 | lists with the same entries fail together and give the same set of names |
| CivicVariantBuild.GetDiseasesOrderFree | previous-builders/civic/build_civic.py:122-127 | the summary does not depend on the order of the evidence |
| CivicVariantBuild.NormalizePosition | previous-builders/civic/build_civic.py:129-141 | only `GRCH37`/`hg19` converts; the conversion succeeds exactly when the liftover of `chr` + chromosome answers a non-empty list, and then gives `hg38` with the first mapping's chromosome and position |
| CivicVariantBuild.Placeholder | previous-builders/civic/build_civic.py:158-161 | a missing base becomes `-`, a present one is kept, so the stored base is never `None` |
| CivicVariantBuild.Emits | previous-builders/civic/build_civic.py:150-184 | definition of the rows that give a tuple: a location, at least one base, a successful conversion and a summarisable evidence list |
| CivicVariantBuild.GetVariantData | previous-builders/civic/build_civic.py:143-185 | no chromosome or start, or no base at all, skips the row; a tuple is returned exactly when `Emits` holds; an emitted row has the snapshot's first field as id, build `hg38`, `-` for the one missing base, and the description, score and disease summary of the response |
| CivicVariantBuild.CurrentBuildDropped | previous-builders/civic/build_civic.py:163-171 | a variant whose build is not `GRCH37`/`hg19` is skipped |
| CivicVariantBuild.EmittedRowIsLifted | previous-builders/civic/build_civic.py:163-185 | every emitted row is an hg19 variant placed at the liftover's first mapping, with both bases present |
| CivicVariantBuild.VariantDataFails | previous-builders/civic/build_civic.py:143-185 | a row raises exactly when it has a location, a base and a liftover hit, and its evidence cannot be summarised |
| CivicVariantBuild.VariantFileUrl | previous-builders/civic/build_civic.py:187-193 | the URL is the download base, `/`, the first-of-month date, `/`, the same date again, and `-VariantSummaries.tsv` |
| CivicVariantBuild.CivicDB.constructor | previous-builders/civic/build_civic.py:29-36 | a connection sees whatever table the database already holds |
| CivicVariantBuild.CivicDB.CreateVariantTable | previous-builders/civic/build_civic.py:43-55 | the table is dropped and recreated empty, without its index |
| CivicVariantBuild.CivicDB.InsertVariant | previous-builders/civic/build_civic.py:57-58 | one row is appended and nothing else changes |
| CivicVariantBuild.CivicDB.CreateIndex | previous-builders/civic/build_civic.py:60-61 | the index is created and the rows are unchanged |
| CivicVariantBuild.VariantStep | previous-builders/civic/build_civic.py:212-221 | definition of one pass of the row loop: `variant[id_idx]` (IndexError on a short row), the API response for that id, then `get_variant_data` |
| CivicVariantBuild.VariantRun | previous-builders/civic/build_civic.py:207-225 | no lines raises IndexError; without a `variant_id` column nothing is inserted, and the unbound `id_idx` raises NameError exactly when there is a data row; at most one record per data row |
| CivicVariantBuild.VariantRunComplete | previous-builders/civic/build_civic.py:208-225 | in a run that raised nothing, the header has a `variant_id` column, every data row has it, its `get_variant_data` succeeded, and its record is in the table whenever `Emits` holds |
| CivicVariantBuild.VariantRunSound | previous-builders/civic/build_civic.py:202-226 | every stored row comes from a data row, has that row's first field as id, is on hg38 and has both bases |
| CivicVariantBuild.FindIdColumn | previous-builders/civic/build_civic.py:208-210 | the header loop leaves the last `variant_id` column, or none |
| CivicVariantBuild.BuildVariantTable | previous-builders/civic/build_civic.py:202-226 | the table ends up holding exactly the run's records in order; it is indexed exactly when nothing was raised; the result is the inserted count or the exception |
| CivicGeneBuild.GeneFileUrl | previous-builders/civic_gene/build_civic_gene.py:85-91 | the URL is the download base, `/`, the first-of-month date, `/`, the same date again, and `-GeneSummaries.tsv` |
| CivicGeneBuild.AllStrings | previous-builders/civic_gene/build_civic_gene.py:100 | `join` accepts the list exactly when all items are strings, and then uses those strings in order |
| CivicGeneBuild.Chars | previous-builders/civic_gene/build_civic_gene.py:100 | iterating a string gives its characters, one per item |
| CivicGeneBuild.GeneAliases | previous-builders/civic_gene/build_civic_gene.py:99-100 | a response without `data` raises KeyError; a non-object raises TypeError; a null gene or alias list raises; an empty alias list gives `""` |
| CivicGeneBuild.AliasesRoundTrip | previous-builders/civic_gene/build_civic_gene.py:99-100 | the alias column splits back on `,` into the alias list when no alias contains a comma |
| CivicGeneBuild.GetGeneData | previous-builders/civic_gene/build_civic_gene.py:94-101 | succeeds exactly when the row has all three columns and the aliases join; a short row raises IndexError; the fields are the row's id, name and description columns and the joined aliases |
| CivicGeneBuild.Column | previous-builders/civic_gene/build_civic_gene.py:117-123 | the index a header scan leaves for one name: the last column with that name, or the previous index when the name is absent |
| CivicGeneBuild.GeneStep | previous-builders/civic_gene/build_civic_gene.py:125-137 | one pass of the row loop never skips: it gives a record or an exception |
| CivicGeneBuild.GeneRun | previous-builders/civic_gene/build_civic_gene.py:114-137 | no lines raises IndexError; at most one record per data row |
| CivicGeneBuild.GeneRunInsertsEveryRow | previous-builders/civic_gene/build_civic_gene.py:110-138 | a run that raised nothing inserts one row per data row, in order, each the `get_gene_data` of its row |
| CivicGeneBuild.CivicDB.constructor | previous-builders/civic_gene/build_civic_gene.py:24-31 | a connection sees whatever table the database already holds |
| CivicGeneBuild.CivicDB.CreateVariantTable | previous-builders/civic_gene/build_civic_gene.py:38-45 | the table is dropped and recreated empty, without its index |
| CivicGeneBuild.CivicDB.InsertGene | previous-builders/civic_gene/build_civic_gene.py:47-48 | one row is appended and nothing else changes |
| CivicGeneBuild.CivicDB.CreateIndex | previous-builders/civic_gene/build_civic_gene.py:50-51 | the index is created and the rows are unchanged |
| CivicGeneBuild.CivicBuilder.constructor | previous-builders/civic_gene/build_civic_gene.py:69-72 | all three column indices start at 0 |
| CivicGeneBuild.CivicBuilder.ScanHeader | previous-builders/civic_gene/build_civic_gene.py:117-123 | each index becomes the last column with its name, or keeps its old value when the name is absent |
| CivicGeneBuild.CivicBuilder.BuildGeneTable | previous-builders/civic_gene/build_civic_gene.py:110-138 | the builder's three indices end as the header scan left them (unchanged when there are no lines); the table ends up holding exactly the run's records in order; it is indexed exactly when nothing was raised; the result is the inserted count or the exception |
| CivicpyData.CountStatus | get-civicpy-data.py:8-14 | the number of items with a given status: at most the number of items, and zero exactly when no item has it |
| CivicpyData.CountsBounded | get-civicpy-data.py:8-14 | the accepted and submitted counts together never exceed the number of evidence items |
| CivicpyData.CountEvidence | get-civicpy-data.py:8-14 | the counts are the number of items with status exactly `accepted` and exactly `submitted` |
| CivicpyData.Kept | get-civicpy-data.py:37-39 | definition of `ref and alt`: both bases present and non-empty |
| CivicpyData.Record | get-civicpy-data.py:40-50 | a kept variant's record has non-empty bases and counts that together do not exceed the profile's evidence |
| CivicpyData.ProfileRecords | get-civicpy-data.py:30-50 | a profile yields at most one record per variant |
| CivicpyData.AllRecords | get-civicpy-data.py:5-50 | definition of `annotated_mps` after the loop: profile by profile, then variant by variant |
| CivicpyData.KeptCount | get-civicpy-data.py:38-39 | the number of kept variants of a list, at most its length |
| CivicpyData.TotalKept | get-civicpy-data.py:5-50 | definition: the number of kept variants over all profiles |
| CivicpyData.ProfileRecordsCount | get-civicpy-data.py:30-50 | a profile has exactly as many records as kept variants |
| CivicpyData.AllRecordsCount | get-civicpy-data.py:51 | `len(annotated_mps)` is the number of kept variants over all profiles |
| CivicpyData.ProfileRecordsAppend | get-civicpy-data.py:30-50 | within a profile, records follow the order of its variants |
| CivicpyData.ProfileRecordsSound | get-civicpy-data.py:30-50 | every record of a profile is the record of one of its variants that has both bases |
| CivicpyData.ProfileRecordsComplete | get-civicpy-data.py:30-50 | every variant with both bases has its record among the profile's records |
| CivicpyData.AllRecordsSound | get-civicpy-data.py:5-50 | every output record is the record of a kept variant of some profile, with that profile's id, variant ids, score and counts |
| CivicpyData.AllRecordsComplete | get-civicpy-data.py:15-50 | no profile is skipped: every kept variant of every profile is in the output |
| CivicpyData.AllRecordsAppend | get-civicpy-data.py:5-50 | records appear in profile order |
| CivicpyData.AnnotateProfiles | get-civicpy-data.py:3-52 | the list built is exactly the records of all profiles in order; its first element is returned, or IndexError when it is empty |
| MolecularProfileAnnotator.StripChr | civic_molecular_profile/civic_molecular_profile.py:45 | removing `chr` never lengthens the chromosome |
| MolecularProfileAnnotator.StripChrNoChr | civic_molecular_profile/civic_molecular_profile.py:45 | a chromosome name without `chr` is left unchanged |
| MolecularProfileAnnotator.StripChrPrefix | civic_molecular_profile/civic_molecular_profile.py:45 | `chr` + a name without `chr` normalises to that name |
| MolecularProfileAnnotator.StripChrFirst | civic_molecular_profile/civic_molecular_profile.py:45 | text without `chr` before the first `chr` is kept, that `chr` is dropped, and the scan goes on after it; with `StripChrNoChr` this fixes the result on every input |
| MolecularProfileAnnotator.Matches | civic_molecular_profile/civic_molecular_profile.py:50 | definition of the `WHERE` clause: all four columns equal, a NULL chromosome or start matching nothing |
| MolecularProfileAnnotator.Project | civic_molecular_profile/civic_molecular_profile.py:65-72 | definition of the five profile fields copied into `out` |
| MolecularProfileAnnotator.Select | civic_molecular_profile/civic_molecular_profile.py:47-59 | every selected row matches all four coordinates and comes from the table |
| MolecularProfileAnnotator.SelectEmpty | civic_molecular_profile/civic_molecular_profile.py:47-59 | the selection is empty exactly when no row matches |
| MolecularProfileAnnotator.SelectHead | civic_molecular_profile/civic_molecular_profile.py:47-59 | a non-empty selection starts with the first matching row of the table |
| MolecularProfileAnnotator.Annotate | civic_molecular_profile/civic_molecular_profile.py:44-74 | `None` exactly when no row matches the normalised coordinates; otherwise the profile fields of the first matching row |
| MolecularProfileAnnotator.StoredRecordIsFound | civic_molecular_profile/civic_molecular_profile.py:44-74 | querying a stored record's own coordinates, with `chr` on the chromosome, answers the fields of a matching row at or before it |

## Left out

- HTTP: the snapshot download is the `lines` input, already split into rows; the GraphQL POST and `json.loads` are the `fetch` parameter. The query text, operation names and timeouts are not modelled. A snapshot GET that raises, which would leave the recreated table empty and unindexed, is not modelled.
- pyliftover is the `Lifter` parameter (`None` or a list of mappings); the chain files are not modelled.
- The clock: `datetime.now()` is replaced by an injected year and month. Years are limited to 1000..9999, where `%Y` has four digits.
- SQLite: tables are sequences of rows. SQL text, column types and the closing of connections are not modelled. The commit on exit is assumed: rows inserted before an exception stay in the table. The annotator reads its table in stored order, which SQLite does not promise without `ORDER BY`.
- CivicVariantBuild.CivicDB.InsertVariant: sqlite3 binding errors are not modelled. A list or object value in `reference_base`, `variant_base`, `description` or `molecular_profile_score`, or an int outside 64 bits, would make the INSERT raise, end the loop and skip the index; the model appends the row. The GraphQL schema types these fields as String and Float, so such values are not expected.
- `fetch` is total: a failed POST, or a body that `json.loads` rejects, is not modelled.
- The tab-separated reader: builders receive the snapshot already split into rows. Quoting rules of the `csv` module are not modelled.
- Logging, `print`, the timing and the final `os.system` call are left out. So are `checksum.py`, `tester.py` and the other helper scripts.
- The annotator's `setup`, `cleanup` and the CRAVAT framework are left out, and so is civicpy's `get_all_molecular_profiles`: its profiles are the input.
- The `parsed_name` loop and the `is_and == 'AND'` test of the civicpy script skip nothing. Both are modelled as the no-ops they are.
- `variant_ids` is kept as a list of integers; the encoding the table uses for it is not modelled.
- JSON numbers are `int` or `real`. f-string rendering of a real, list or object chromosome is not modelled (`Str` gives `""`).
- CivicGeneBuild.GeneAliases: a JSON object given as the alias list (Python would join its keys) raises TypeError in the model, because objects are unordered maps here.
- CivicGeneBuild.GeneAliases: its contract states the error paths and the empty list only. The value for a non-empty list is stated by `AliasesRoundTrip`. The value for an alias string (joined character by character) is not stated.
