/** The record shapes shared by both sides: a job as built from the Notion
    database, a sheet row keyed by header, the comparison `compare_rows`, the
    two field converters, and the writes to the sheet as mutation values. */
module Records {
  import opened Json

  /** A record as `get_database` builds it; every field holds whatever the
      Notion lookup produced (`JNull` for Python's `None`). */
  datatype Job = Job(
    date: Json,
    kind: Json,
    company: Json,
    position: Json,
    status: Json,
    location: Json,
    referral: Json,
    website: Json)

  /** A sheet row as `get_sheet` builds it: header cell to cell value. */
  type SheetRow = map<string, Json>

  /** The sheet keys `compare_rows` reads; a missing one raises `KeyError`. */
  predicate HasCompareKeys(row: SheetRow) {
    "Status" in row && "Company" in row && "Position" in row &&
    "Location" in row && "Website" in row && "Referral?" in row
  }

  predicate AllCompareKeys(data: seq<SheetRow>) {
    forall t :: 0 <= t < |data| ==> HasCompareKeys(data[t])
  }

  /** Same identity key: Company and Position are equal values (exact, case-sensitive). */
  predicate SameJob(job: Job, row: SheetRow)
    requires HasCompareKeys(row)
  {
    row["Company"] == job.company && row["Position"] == job.position
  }

  /** The freshness fields agree; the Notion `Referral` is compared with the sheet's `Referral?`. */
  predicate UpToDate(job: Job, row: SheetRow)
    requires HasCompareKeys(row)
  {
    row["Status"] == job.status && row["Location"] == job.location &&
    row["Referral?"] == job.referral && row["Website"] == job.website
  }

  /** `compare_rows(r1, r2)`: -1 for a different job, 0 for the same job up to
      date, 1 for the same job with a stale row. Date and Type are not read. */
  function CompareRows(r1: Job, r2: SheetRow): (r: int)
    requires HasCompareKeys(r2)
    ensures r == -1 || r == 0 || r == 1
    ensures r == -1 <==> !SameJob(r1, r2)
    ensures r == 0 <==> SameJob(r1, r2) && UpToDate(r1, r2)
    ensures r == 1 <==> SameJob(r1, r2) && !UpToDate(r1, r2)
  {
    if r1.company == r2["Company"] && r1.position == r2["Position"] then
      if r1.status != r2["Status"] || r1.location != r2["Location"] ||
         r1.referral != r2["Referral?"] || r1.website != r2["Website"]
      then 1
      else 0
    else -1
  }

  /** Neither the record's Date and Type nor the row's Date and Type cells change the verdict. */
  lemma CompareIgnoresDateAndType(job: Job, row: SheetRow, date: Json, kind: Json, dateCell: Json, typeCell: Json)
    requires HasCompareKeys(row)
    ensures HasCompareKeys(row["Date" := dateCell]["Type" := typeCell])
    ensures CompareRows(job.(date := date, kind := kind), row["Date" := dateCell]["Type" := typeCell])
         == CompareRows(job, row)
  {
  }

  /** Identity is exact: a company differing only in case is another job. */
  lemma IdentityIsCaseSensitive(job: Job, row: SheetRow)
    requires HasCompareKeys(row)
    requires job.company == JStr("Acme") && row["Company"] == JStr("acme")
    ensures CompareRows(job, row) == -1
  {
  }

  const InterviewRounds: set<Json> :=
    {JStr("1st Interview"), JStr("2nd Interview"), JStr("3rd Interview")}

  /** `convert_n_to_s_status`: the numbered interview rounds become "Interview";
      any other value, `None` included, passes through. */
  function ConvertStatus(status: Json): (r: Json)
    ensures status in InterviewRounds ==> r == JStr("Interview")
    ensures status !in InterviewRounds ==> r == status
  {
    if status == JStr("1st Interview") || status == JStr("2nd Interview") || status == JStr("3rd Interview")
    then JStr("Interview")
    else status
  }

  /** Converting twice is converting once, and no numbered round survives. */
  lemma ConvertStatusIdempotent(status: Json)
    ensures ConvertStatus(ConvertStatus(status)) == ConvertStatus(status)
    ensures ConvertStatus(status) !in InterviewRounds
  {
  }

  /** `convert_n_to_s_boolean`: "TRUE" exactly for a truthy value, else "FALSE". */
  function ConvertBoolean(v: Json): (r: string)
    ensures r == "TRUE" || r == "FALSE"
    ensures r == "TRUE" <==> Truthy(v)
  {
    if Truthy(v) then "TRUE" else "FALSE"
  }

  /** A write to the sheet, in place of `write_to_sheet_temp(row, append, job)`:
      an overwrite of sheet row `row` (`append` false) or an append (`append` true). */
  datatype Mutation = UpdateAt(row: int, job: Job) | Append(job: Job)

  /** The job each write in `ms` carries, in order. */
  function JobsOf(ms: seq<Mutation>): (js: seq<Job>)
    ensures |js| == |ms| && forall t :: 0 <= t < |ms| ==> js[t] == ms[t].job
  {
    seq(|ms|, t requires 0 <= t < |ms| => ms[t].job)
  }

  /** The eight cells written for a job, in the order of columns B to I. */
  function Cells(job: Job): (r: seq<Json>)
    ensures |r| == 8
  {
    [job.date, job.kind, job.company, job.position, job.status, job.location, job.referral, job.website]
  }
}
