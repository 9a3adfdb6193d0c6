/** The row shaping of `get_sheet`: the cell grid returned by the Sheets API
    becomes one header-keyed row per data row. */
module Sheet {
  import opened Json
  import opened Records

  /** The last column before `n` whose header cell is `key`, or -1: when a
      header repeats, the later column overwrites the earlier one. */
  function LastColumn(header: seq<string>, n: nat, key: string): (c: int)
    requires n <= |header|
    ensures -1 <= c < n
    ensures c >= 0 ==> header[c] == key
  {
    if n == 0 then -1
    else if header[n - 1] == key then n - 1
    else LastColumn(header, n - 1, key)
  }

  /** No column between the one found and `n` carries the key: the found
      column is the last, and -1 means the key is absent. */
  lemma {:induction false} LastColumnIsLast(header: seq<string>, n: nat, key: string)
    requires n <= |header|
    ensures forall t :: LastColumn(header, n, key) < t < n ==> header[t] != key
  {
    if n > 0 && header[n - 1] != key {
      LastColumnIsLast(header, n - 1, key);
    }
  }

  /** `m` holds the first `n` cells of `row`, each under the header of its column. */
  ghost predicate Filled(header: seq<string>, row: seq<string>, n: nat, m: SheetRow)
    requires n <= |row| <= |header|
  {
    (forall c :: 0 <= c < n ==> header[c] in m) &&
    (forall key :: key in m ==> LastColumn(header, n, key) >= 0 && m[key] == JStr(row[LastColumn(header, n, key)]))
  }

  /** The dict built for one row: every cell under its header, and a `None`
      Website when the row has fewer than eight cells. */
  ghost predicate RowShaped(header: seq<string>, row: seq<string>, m: SheetRow)
    requires |row| <= |header|
  {
    (forall c :: 0 <= c < |row| ==> header[c] in m) &&
    (|row| < 8 ==> "Website" in m && m["Website"] == JNull) &&
    (forall key :: key in m && !(|row| < 8 && key == "Website") ==>
       LastColumn(header, |row|, key) >= 0 && m[key] == JStr(row[LastColumn(header, |row|, key)]))
  }

  /** The dict after the first `n` cells: each stored under its header, a
      later column overwriting an earlier one with the same header. */
  function Prefix(header: seq<string>, row: seq<string>, n: nat): SheetRow
    requires n <= |row| <= |header|
  {
    if n == 0 then map[] else Prefix(header, row, n - 1)[header[n - 1] := JStr(row[n - 1])]
  }

  /** The dict built for one row: the cells, then `None` under "Website" for
      a row of fewer than eight cells. */
  function RowObject(header: seq<string>, row: seq<string>): SheetRow
    requires |row| <= |header|
  {
    var m := Prefix(header, row, |row|);
    if |row| < 8 then m["Website" := JNull] else m
  }

  /** The first `n` cells are stored, each under its header, the last column
      with a repeated header winning. */
  lemma {:induction false} PrefixFilled(header: seq<string>, row: seq<string>, n: nat)
    requires n <= |row| <= |header|
    ensures Filled(header, row, n, Prefix(header, row, n))
  {
    if n > 0 {
      PrefixFilled(header, row, n - 1);
      var m := Prefix(header, row, n - 1);
      var m' := Prefix(header, row, n);
      forall key | key in m'
        ensures LastColumn(header, n, key) >= 0 && m'[key] == JStr(row[LastColumn(header, n, key)])
      {
        if key != header[n - 1] {
          assert LastColumn(header, n, key) == LastColumn(header, n - 1, key);
        }
      }
    }
  }

  /** Every row dict is shaped. */
  lemma RowObjectShaped(header: seq<string>, row: seq<string>)
    requires |row| <= |header|
    ensures RowShaped(header, row, RowObject(header, row))
  {
    PrefixFilled(header, row, |row|);
  }

  /** The inner loop of `get_sheet` for one row. */
  method BuildRowObject(header: seq<string>, row: seq<string>) returns (m: SheetRow)
    requires |row| <= |header|
    ensures m == RowObject(header, row)
  {
    m := map[];
    var i := 0;
    while i < |row|
      invariant 0 <= i <= |row|
      invariant m == Prefix(header, row, i)
    {
      m := m[header[i] := JStr(row[i])];
      i := i + 1;
    }
    if |row| < 8 {
      m := m["Website" := JNull];
    }
  }

  /** `get_sheet` after the API call: every row of `values` shaped by the
      header row `values[0]`, then the header row dropped. */
  method GetSheetRows(values: seq<seq<string>>) returns (rows: seq<SheetRow>)
    requires |values| > 0
    requires forall k :: 0 <= k < |values| ==> |values[k]| <= |values[0]|
    ensures |rows| == |values| - 1
    ensures forall k :: 0 <= k < |rows| ==> rows[k] == RowObject(values[0], values[k + 1])
  {
    var all: seq<SheetRow> := [];
    var firstRow := values[0];
    var k := 0;
    while k < |values|
      invariant 0 <= k <= |values|
      invariant |all| == k
      invariant forall t :: 0 <= t < k ==> all[t] == RowObject(firstRow, values[t])
    {
      var rowObject := BuildRowObject(firstRow, values[k]);
      all := all + [rowObject];
      k := k + 1;
    }
    rows := all[1..];
  }

  /** The header the rest of the program assumes, columns B to I: the order in
      which `write_to_sheet_temp` writes a job's cells (main.py:190-199), with
      the sheet-side names `compare_rows` reads (main.py:253-258). The header
      itself lives in the sheet and is not part of the source. */
  const StandardHeader: seq<string> :=
    ["Date", "Type", "Company", "Position", "Status", "Location", "Referral?", "Website"]

  /** The column of each key `compare_rows` reads under `StandardHeader`. */
  lemma StandardColumns(n: nat)
    requires 7 <= n <= 8
    ensures LastColumn(StandardHeader, n, "Company") == 2
    ensures LastColumn(StandardHeader, n, "Position") == 3
    ensures LastColumn(StandardHeader, n, "Status") == 4
    ensures LastColumn(StandardHeader, n, "Location") == 5
    ensures LastColumn(StandardHeader, n, "Referral?") == 6
    ensures n == 8 ==> LastColumn(StandardHeader, n, "Website") == 7
  {
  }

  /** Under `StandardHeader` a row of seven or eight cells carries every
      key `compare_rows` reads, each cell in its column, and no raised `KeyError`. */
  lemma StandardRowCompares(row: seq<string>, m: SheetRow)
    requires 7 <= |row| <= 8
    requires RowShaped(StandardHeader, row, m)
    ensures HasCompareKeys(m)
    ensures m["Company"] == JStr(row[2]) && m["Position"] == JStr(row[3])
    ensures m["Status"] == JStr(row[4]) && m["Location"] == JStr(row[5])
    ensures m["Referral?"] == JStr(row[6])
    ensures m["Website"] == if |row| == 8 then JStr(row[7]) else JNull
  {
    var h := StandardHeader;
    StandardColumns(|row|);
    assert h[2] in m && h[3] in m && h[4] in m && h[5] in m && h[6] in m;
    if |row| == 8 {
      assert h[7] in m;
    }
  }

  /** A written row reads back up to date: when a job's fields are all strings
      and its website is not empty, so that the row reads back with all eight
      cells, the row shaped under `StandardHeader` compares as the same,
      up-to-date job. */
  lemma WrittenRowIsUpToDate(job: Job, m: SheetRow)
    requires AllText(job) && job.website != JStr("")
    requires RowShaped(StandardHeader, CellText(job), m)
    ensures HasCompareKeys(m) && CompareRows(job, m) == 0
  {
    StandardRowCompares(CellText(job), m);
  }

  /** An empty website is a trailing empty cell, which a read of the sheet
      omits: the row reads back with seven cells, its Website is `None`, and
      the job compares as stale on every later run. */
  lemma EmptyWebsiteReadsBackStale(job: Job, m: SheetRow)
    requires AllText(job) && job.website == JStr("")
    requires RowShaped(StandardHeader, CellText(job)[..7], m)
    ensures HasCompareKeys(m) && m["Website"] == JNull && CompareRows(job, m) == 1
  {
    StandardRowCompares(CellText(job)[..7], m);
    assert m["Company"] == job.company && m["Position"] == job.position;
  }

  /** Every one of the eight cells written for the job is a string. */
  predicate AllText(job: Job) {
    forall t :: 0 <= t < 8 ==> Cells(job)[t].JStr?
  }

  /** The text of the eight cells of a job whose cells are all strings. */
  function CellText(job: Job): (r: seq<string>)
    requires AllText(job)
    ensures |r| == 8 && forall t :: 0 <= t < 8 ==> Cells(job)[t] == JStr(r[t])
  {
    seq(8, t requires 0 <= t < 8 => Cells(job)[t].s)
  }
}
