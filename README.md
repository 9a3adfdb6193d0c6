# notion-sheets-sync, modelled in Dafny

The script `main.py` copies job-application records from a Notion database
into a Google Sheet. It has four pieces of decision logic, and this project
models them apart from the API calls around them:

- **Field lookup and shaping** (`json.dfy`, `notion.dfy`). `safe_get` walks
  a dotted path through the decoded Notion JSON. `get_database` turns every
  database row with a position into a job record with formatted fields.
- **Row classifier and converters** (`records.dfy`). `compare_rows` gives a
  three-way verdict on a record and a sheet row. The two `convert_n_to_s_*`
  helpers normalise the status and the referral checkbox.
- **Sheet row shaping** (`sheet.dfy`). The part of `get_sheet` after the API
  call turns the cell grid into one header-keyed dict per data row.
- **Reconciliation** (`reconcile.dfy`). Mode "r" is the refresh walk with
  its cursors `i` and `j`, a forward probe, a backward probe and an append
  fallback. Mode "a" is the tail check. Writes to the sheet are not
  performed: each call of `write_to_sheet_temp` becomes a `Mutation` value,
  `UpdateAt(row, job)` or `Append(job)`.

Python values are the `Json` datatype, with `JNull` for `None`, and Python
truthiness is `Truthy`. A job record is the datatype `Job`, with the eight
fields `get_database` builds: Company, Position and Website are the Notion
lookups as they are, Type is the constant "Job", and Date, Status, Location
and Referral are converted or defaulted from their lookups. A sheet row is a
`map<string, Json>`.

The imperative parts of the source are methods with loops, each proved
equal to a specification function:

- `SafeGet` equals `Lookup`.
- `GetDatabase` equals `Collect(RecordsOf(..))` of the listed rows.
- `BuildRowObject` equals `RowObject`.
- `Refresh` equals `RefreshSpec`, which is built from the per-iteration
  `Step`.

The properties the source promises are then proved about those functions.

Six places where the source crashes become preconditions. Each one states
exactly what the caller must supply for the crash not to happen, except
`IntKeysOk`, which is stronger (see "Left out"):

- `HasResults`: `get_database` reads `content["results"]` and iterates it,
  which raises unless `content` is a dict holding `"results"` and that value
  is a list, a dict or a string. A dict or string in that place yields only
  strings, none of which gives a record (`StringRowSkipped`), so
  `GetDatabase` returns no records for it.
- `StepKeys`, `PlanKeys` and `RefreshKeys`: `compare_rows` raises `KeyError`
  on a sheet row that lacks one of the six keys it reads (`HasCompareKeys`).
  These predicates demand the keys only of the rows the refresh actually
  compares: the row at the cursor, the rows the forward probe passes up to
  its first match, and, when that probe fails, the rows the backward probe
  passes down to its match. A sheet whose every row has the keys satisfies
  them (`AllKeysRefreshKeys`).
- `IntKeysOk`: `safe_get` does not catch the `ValueError` of `int(key)`.
- `|values| > 0` and no row longer than the header: `get_sheet` indexes
  `values[0]` and `first_row[i]`.
- `Sliceable`: `date[5:]` raises `TypeError` on a truthy date that is
  neither a string nor a list.
- The tail check indexes `simplified_rows[0]` and `data[-1]`, and compares
  only the last sheet row: `Sync` demands for choice "a" two non-empty lists
  and the keys on the last row.

## Model

| member | source | states |
|---|---|---|
| Json.Split | main.py:295 | `str.split(".")` always yields at least one piece, and no piece contains a dot |
| Json.SplitJoin | main.py:295 | splitting the dot-join of dot-free keys gives back exactly those keys |
| Json.JoinSplit | main.py:295 | joining the pieces of a split with "." gives back the original string, so splitting loses nothing |
| Json.FalsyValues | main.py:278 | a value is falsy exactly when it is `None`, `False`, `0`, `""`, `[]` or `{}`, the truthiness `if status`, `if not position`, `if date` and `if not location` test (main.py:278, 331, 340, 345) |
| Json.ParseInt | main.py:299 | `int(key)` of a sign-and-digits literal is negative only after a minus sign |
| Json.ParseIntDecimal | main.py:299 | `int()` reads back every decimal numeral: `int(str(n)) == n`, `int("+" + str(n)) == n` and `int("-" + str(n)) == -n` |
| Json.PyIndex | main.py:297-298 | Python list indexing: a non-negative index counts from the front, a negative one from the end |
| Json.SafeGet | main.py:290-304 | the key loop returns `Lookup` of the split path: lists are indexed by `int(key)`, dicts by key, and `None` is returned at the first `KeyError`, `TypeError` or `IndexError` |
| Json.LookupNull | main.py:300-303 | once a step has produced `None`, every further key leaves it `None` |
| Json.LookupCompose | main.py:296-304 | looking up `k1 + k2` equals looking up `k2` in the result for `k1`; an early `return None` acts like walking on from `None` |
| Json.DocstringExample | main.py:291-294 | in `{'a': {'b': [{'c': v}]}}` the keys `a`, `b`, `0`, `c` lead to `v` (the docstring example, for any leaf value) and raise nothing |
| Json.SplitExample | main.py:293-295 | `"a.b.0.c".split(".")` is `["a", "b", "0", "c"]` |
| Records.CompareRows | main.py:239-267 | the result is -1, 0 or 1; -1 exactly when Company or Position differ; 0 exactly when both match and Status, Location, Referral (the sheet's `Referral?`) and Website are all equal; 1 exactly when the identity matches but one of those four differs |
| Records.CompareIgnoresDateAndType | main.py:244-258 | changing the record's Date and Type, or the row's Date and Type cells, never changes the verdict |
| Records.IdentityIsCaseSensitive | main.py:261 | identity uses exact equality: "Acme" and "acme" are different jobs |
| Records.ConvertStatus | main.py:270-274 | the three numbered interview rounds become "Interview"; every other value, `None` included, is returned unchanged |
| Records.ConvertStatusIdempotent | main.py:270-274 | converting twice equals converting once, and no numbered round survives conversion |
| Records.ConvertBoolean | main.py:277-281 | the result is "TRUE" or "FALSE", and "TRUE" exactly for a truthy value |
| Notion.DropFive | main.py:341 | `s[5:]` is empty for at most five elements; otherwise it is the elements after the fifth, in order |
| Notion.FormatDate | main.py:340-343 | a falsy date gives `None`; a truthy string or list gives its slice `[5:]` |
| Notion.FormatIsoDate | main.py:341 | for a ten-character `YYYY-MM-DD` date, `date[5:]` is its last five characters |
| Notion.FormatDateExamples | main.py:340-343 | "2024-06-29" gives "06-29", a four-character date gives "", and only an empty or absent date gives `None` |
| Notion.ShapeFields | main.py:335-358 | every record built has Type "Job", a truthy Position, Referral "TRUE" or "FALSE" (TRUE exactly for a truthy checkbox), Location "" when the lookup is falsy, the converted Status and the formatted Date |
| Notion.RecordOf | main.py:331-358 | a row yields a record exactly when its position is truthy |
| Notion.StringRowSkipped | main.py:321-333 | a row that is a string raises nothing and yields no record, because every lookup on it is `None` |
| Notion.RecordsOf | main.py:321 | one entry per row, in row order |
| Notion.Collect | main.py:321-360 | no more records than entries; each present entry is kept, and nothing absent is added |
| Notion.Present | main.py:331 | the indices of the present entries, strictly increasing, each holding a present entry, and every present entry's index among them |
| Notion.CollectIsPresent | main.py:321-360 | `Collect` keeps each present entry exactly once, in input order, and nothing else: its `t`-th record is the value at the `t`-th present index |
| Notion.CollectAppend | main.py:321-358 | collecting distributes over concatenation, so input order is preserved |
| Notion.CollectedRecords | main.py:319-360 | the output holds exactly the records of the rows with a truthy position: each such row's record is in it, and each element is the record of such a row |
| Notion.PathSplit | main.py:323-329 | each of the seven dotted property paths splits into its intended keys |
| Notion.RecordFromRow | main.py:323-358 | the loop body keeps a row exactly when its position is truthy, and then builds `Shape(row)` |
| Notion.GetDatabase | main.py:319-360 | for a list of rows the records returned are `Collect(RecordsOf(rows))`: the shaped records of the rows with a position, in input order; for a dict or a string in place of the list, no records |
| Sheet.LastColumn | main.py:81-82 | the column found holds the key and lies before `n`, or is -1 |
| Sheet.LastColumnIsLast | main.py:81-82 | no later column holds the key, so when a header repeats the later column wins |
| Sheet.PrefixFilled | main.py:81-82 | after the first `n` cells, every header of those columns is a key, and each key holds the cell of the last column carrying it |
| Sheet.RowObjectShaped | main.py:79-87 | each row dict holds every cell under the header of its column, and a row with fewer than eight cells has Website `None` |
| Sheet.BuildRowObject | main.py:79-87 | the inner loop builds exactly `RowObject(header, row)` |
| Sheet.GetSheetRows | main.py:77-95 | one dict per data row, each equal to `RowObject` of that row under the header row, and the header row itself is dropped |
| Sheet.StandardColumns | main.py:81-82 | under `StandardHeader` (the write order of main.py:190-199 with the sheet names read at main.py:253-258), Company, Position, Status, Location, Referral? and Website sit in columns 2 to 7 |
| Sheet.StandardRowCompares | main.py:81-87 | a shaped row of seven or eight cells under `StandardHeader` carries every key `compare_rows` reads, each holding its column's cell |
| Sheet.CellText | main.py:190-199 | the text of the eight written cells, cell by cell the strings of `Cells` |
| Sheet.WrittenRowIsUpToDate | main.py:190-199 | a record whose fields are all strings and whose website is not empty, once written and read back under `StandardHeader`, compares as the same job and up to date |
| Sheet.EmptyWebsiteReadsBackStale | main.py:81-87 | a record with an empty website reads back as a seven-cell row with Website `None`, and compares as the same job but stale |
| Reconcile.Forward | main.py:412-415 | the forward probe finds the first index from `lo` onward that holds the same job, or reports that none does; every row it compares carries the keys |
| Reconcile.Backward | main.py:421-424 | the backward probe finds the last index at or below `hi` that holds the same job, or reports that none does; every row it compares carries the keys |
| Reconcile.ResolveMismatch | main.py:405-457 | the two probe loops write `Step` of the mismatch; the `i + 2` and `i + 4` offsets both target the match plus 3; the cursor ends at `original_i + 1` |
| Reconcile.Iteration | main.py:388-459 | one loop iteration writes `Step` for the record and the cursor, then moves the cursor on by one |
| Reconcile.Refresh | main.py:381-459 | the refresh loop, with `i == k` and `j == -(k + 1)` at iteration `k`, produces exactly `RefreshSpec`, for every input on which no comparison raises `KeyError` (`RefreshKeys`) |
| Reconcile.ForwardNoMatch | main.py:412-415 | a forward probe over rows that all hold other jobs compares them all and finds nothing |
| Reconcile.BackwardMatch | main.py:421-424 | a backward probe stops at the highest matching row at or below its start, comparing only the rows above that match |
| Reconcile.AllKeysRefreshKeys | main.py:253-258 | a sheet whose every row carries the six keys never makes the refresh raise `KeyError` |
| Reconcile.RefreshAbortsIffLonger | main.py:386-391 | the run stops early exactly when the source is longer than the sheet, at cursor `len(data)`, keeping the writes of the earlier iterations |
| Reconcile.StepSound | main.py:392-452 | an iteration writes at most once and only its own record; each update targets a row holding the same job, and each append is for a job absent from the sheet |
| Reconcile.StepAppendsExactlyUnmatched | main.py:418-445 | an append is issued exactly when no sheet row holds the same job |
| Reconcile.PlanSound | main.py:386-459 | the first `k` iterations write at most `k` mutations, each sound and each for one of the records processed |
| Reconcile.StepJobs | main.py:392-452 | an iteration writes nothing, or one write carrying its own record |
| Reconcile.PlanJobs | main.py:386-459 | the first `k` iterations write each processed record at most as often as it occurs among those `k` records |
| Reconcile.RefreshSound | main.py:381-459 | no duplication: an update only ever targets a row holding the same job, an append only a job the sheet lacks, and the writes carry each record at most as often as it occurs in the source (the multiset of written jobs is within the source's), so at most one write per record |
| Reconcile.PlanMirrorEmpty | main.py:392-396 | when every record processed sits up to date at its mirrored index, nothing is written |
| Reconcile.RefreshOfSyncedSheetIsEmpty | main.py:381-396 | against a sheet that already mirrors the source, the refresh finishes and writes nothing |
| Reconcile.StepStaleAtCursor | main.py:397-404 | a stale row at the cursor is overwritten at sheet row index + 3 |
| Reconcile.StepPrefersForward | main.py:410-419 | if the job also appears after the cursor, the forward match wins and no earlier row is written |
| Reconcile.StepBackwardRewritesFresh | main.py:418-431 | a backward match is rewritten even when it is already up to date |
| Reconcile.ReorderedSheetScenario | main.py:386-459 | on a reordered sheet the forward probe finds the stale record one row down and overwrites sheet row 4; the next record is found up to date, and nothing is appended |
| Reconcile.NewApplicationScenario | main.py:386-391 | a record newer than the whole sheet makes the refresh stop at cursor 1 with nothing written, while the tail check appends it |
| Reconcile.TailAsWritten | main.py:460-472 | the tail check as written issues at most one write |
| Reconcile.TailVerdicts | main.py:463-472 | the tail check writes nothing for an up-to-date last row, an update at `len(data) + 3` for a stale one, and an append for another job |
| Reconcile.TailAsWrittenMissesLastRow | main.py:468-469 | as written, a stale last row is written at a row that belongs to no sheet index |
| Reconcile.TailAndRefreshDisagree | main.py:400-404 | with one record and one stale row, the refresh updates sheet row 3 while the tail check as written updates row 4 |
| Reconcile.TailFixed | main.py:460-472 | the corrected tail check issues at most one write |
| Reconcile.TailFixedSound | main.py:466-472 | corrected, each tail update targets a row holding the same job, and for a matching job the tail check writes what a refresh iteration at the last index writes |
| Reconcile.FreshRowRewrittenEveryRun | main.py:418-431 | the refresh is not idempotent: with both records on the sheet and up to date but the newer one (`src[0]`) above the older, against the mirrored order, the forward probe for the newer one finds nothing and the backward probe rewrites its fresh row; since the sheet is unchanged every later run repeats that write |
| Reconcile.Sync | main.py:384-479 | choice "r" refreshes, choice "a" runs the corrected tail check, and any other choice writes nothing; the only demands are those that stop the chosen branch from raising |

## Left out

- OAuth and credential handling, the `token.pickle` file and the Google API client calls. These are network and file I/O against libraries that are not shown. The sheet grid reaches `GetSheetRows` as a parameter.
- The Notion client calls (`read_text`, `databases.query`). These are foreign API calls. Their decoded result reaches `GetDatabase` as a `Json` parameter.
- Notion.GetDatabase: when `content["results"]` is a dict or a string, the loop over its keys or characters is not performed; the method returns `[]` at once, which is what that loop produces, since each element is a string that `StringRowSkipped` shows is skipped. The number of `print('error')` lines is the only thing lost.
- Reconcile.Sync: for choice "a" it writes the corrected `TailFixed`, at sheet row `len(data) + 2`, where main.py:469 writes `len(data) + 3`. The code as written is `TailAsWritten`; the departure is the finding below.
- `write_dict_to_file_json`: it only writes debug files.
- `input()` and every `print`. The "r"/"a" answer becomes the `choice` parameter of `Sync`.
- The `needsUpdate` flag: it only selects a message to print.
- `write_to_sheet`: it is an unused duplicate of `write_to_sheet_temp`.
- `write_to_sheet_temp` is not performed. A write becomes a `Mutation` value, and the eight cells it sends are `Cells`/`CellText`.
- The sheet-name prefix of the update range is not modelled; the row number is.
- Applying the mutations to the sheet is not modelled. As a consequence, the refresh loop's later comparisons read the sheet as fetched, which is also what the source does.
- The Sheets `USER_ENTERED` input mode may reformat a written value (a date, say). `WrittenRowIsUpToDate` assumes every value reads back as written. The one read-back change modelled is the omission of a trailing empty cell, an empty website (`EmptyWebsiteReadsBackStale`).
- IntKeysOk: `int()` is modelled for an optional sign followed by ASCII decimal digits. Surrounding whitespace, digit-group underscores and non-ASCII decimal digits (Arabic-Indic digits, say), which Python also accepts, are not modelled.
- A key that `int()` rejects raises an uncaught `ValueError` in `safe_get`. This crash is the precondition `IntKeysOk`.
- Python equality is modelled as equality of `Json` values. The cross-type equalities `True == 1` and `1 == 1.0` are not modelled, and there are no floating-point values.
- A `compare_rows` call on a sheet row missing one of the keys it reads raises `KeyError`. This crash is the precondition `RefreshKeys` of `Refresh` (the keys on every row some iteration compares) and, in tail mode, `HasCompareKeys` of the last row. Rows no comparison reaches may lack keys.
- `get_sheet` raises on an empty grid (`values[0]`) and on a row longer than the header (`first_row[i]`). Both crashes are preconditions of `GetSheetRows`. Its `if not values` branch cannot be reached and is not modelled.
- A truthy date that is not a string or list (an `int`, say) makes `date[5:]` raise `TypeError`. This crash is the precondition `Sliceable`.
- In tail mode, `simplified_rows[0]` and `data[-1]` raise on an empty list. These crashes are preconditions of `Sync` for choice "a".
- The mismatch branch and the body of the refresh loop are separate methods, `ResolveMismatch` and `Iteration`. The source writes them inline in `main`.
- The Python `for row in simplified_rows` loop is modelled with an explicit counter `k`. The loop variable `row` is never read in the source.
- Three behaviours follow the code as written:
  - the date becomes `date[5:]`, which is the last five characters only for a ten-character date, although the comment at main.py:341 says "gets the last 5 elements of the date";
  - an unrecognised status passes through unchanged (main.py:273-274);
  - the backward probe's `i + 4` offset is correct, as the comment at main.py:428 says: the loop steps one row below the match, so every update targets the matched index plus 3.

## Findings

| source | as written | input that shows it | evidently intended | confidence | as-written member | corrected member |
|---|---|---|---|---|---|---|
| main.py:468-469 | in tail mode a stale last row is written at sheet row `len(data) + 3` | one record and one sheet row holding the same job with a different Status: the tail check writes row 4, but the row sits at sheet row 3 (where the refresh writes it) | the last row, `len(data) - 1 + 3`, the same offset as every refresh update | medium, not executed | Reconcile.TailAsWritten (with Reconcile.TailAsWrittenMissesLastRow, Reconcile.TailAndRefreshDisagree) | Reconcile.TailFixed (with Reconcile.TailFixedSound) |
