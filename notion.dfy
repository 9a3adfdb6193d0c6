/** `get_database`: turning the rows of a Notion database query into job records. */
module Notion {
  import opened Json
  import opened Records
  import opened Wrappers

  // The property paths read from each Notion row, as split keys.
  const StatusPath: seq<string> := ["properties", "Status", "status", "name"]
  const LocationPath: seq<string> := ["properties", "Location", "select", "name"]
  const CompanyPath: seq<string> := ["properties", "Name", "rollup", "array", "0", "title", "0", "plain_text"]
  const WebsitePath: seq<string> := ["properties", "Website", "rich_text", "0", "plain_text"]
  const DatePath: seq<string> := ["properties", "Date", "date", "start"]
  const PositionPath: seq<string> := ["properties", "Position", "title", "0", "plain_text"]
  const ReferralPath: seq<string> := ["properties", "Referral", "checkbox"]

  /** None of the seven lookups raises `ValueError`. */
  predicate PathsOk(row: Json) {
    IntKeysOk(row, StatusPath) && IntKeysOk(row, LocationPath) && IntKeysOk(row, CompanyPath) &&
    IntKeysOk(row, WebsitePath) && IntKeysOk(row, DatePath) && IntKeysOk(row, PositionPath) &&
    IntKeysOk(row, ReferralPath)
  }

  /** A row is kept exactly when its position is truthy. */
  predicate HasPosition(row: Json)
    requires PathsOk(row)
  {
    Truthy(Lookup(row, PositionPath))
  }

  /** A truthy date supports `date[5:]` (a string or a list; anything else raises). */
  predicate Sliceable(v: Json) { Truthy(v) ==> v.JStr? || v.JArr? }

  /** What the loop needs of one row to run without raising. */
  predicate Decodable(row: Json) {
    PathsOk(row) && (HasPosition(row) ==> Sliceable(Lookup(row, DatePath)))
  }

  /** Python's `s[5:]`: empty when there are at most five elements. */
  function DropFive<T>(s: seq<T>): (r: seq<T>)
    ensures |s| <= 5 ==> r == []
    ensures |s| > 5 ==> |r| == |s| - 5 && forall t :: 0 <= t < |r| ==> r[t] == s[t + 5]
  {
    if |s| <= 5 then [] else s[5..]
  }

  /** The date formatting: `date[5:]` for a truthy date, `None` otherwise. */
  function FormatDate(date: Json): (r: Json)
    requires Sliceable(date)
    ensures !Truthy(date) ==> r == JNull
    ensures date.JStr? && Truthy(date) ==> r == JStr(DropFive(date.s))
    ensures date.JArr? && Truthy(date) ==> r == JArr(DropFive(date.items))
  {
    if !Truthy(date) then JNull
    else if date.JStr? then JStr(DropFive(date.s))
    else JArr(DropFive(date.items))
  }

  /** For a `YYYY-MM-DD` string `date[5:]` is indeed the last five characters `MM-DD`. */
  lemma FormatIsoDate(s: string)
    requires |s| == 10
    ensures FormatDate(JStr(s)) == JStr(s[|s| - 5..])
  {
  }

  /** "2024-06-29" becomes "06-29"; a non-empty four-character date becomes "", not `None`. */
  lemma FormatDateExamples()
    ensures FormatDate(JStr("2024-06-29")) == JStr("06-29")
    ensures FormatDate(JStr("2024")) == JStr("")
    ensures FormatDate(JStr("")) == JNull && FormatDate(JNull) == JNull
  {
  }

  /** The record built for a kept row, with the formatting of the loop body. */
  function Shape(row: Json): Job
    requires Decodable(row) && HasPosition(row)
  {
    var location := Lookup(row, LocationPath);
    Job(
      date := FormatDate(Lookup(row, DatePath)),
      kind := JStr("Job"),
      company := Lookup(row, CompanyPath),
      position := Lookup(row, PositionPath),
      status := ConvertStatus(Lookup(row, StatusPath)),
      location := if Truthy(location) then location else JStr(""),
      referral := JStr(ConvertBoolean(Lookup(row, ReferralPath))),
      website := Lookup(row, WebsitePath))
  }

  /** What every record built by `get_database` looks like: Type "Job", a
      Referral of "TRUE" or "FALSE", a Location of "" when the row has none,
      the Date formatted, the Status converted and the rest as looked up. */
  lemma ShapeFields(row: Json)
    requires Decodable(row) && HasPosition(row)
    ensures Shape(row).kind == JStr("Job")
    ensures Shape(row).referral == JStr("TRUE") || Shape(row).referral == JStr("FALSE")
    ensures Shape(row).referral == JStr("TRUE") <==> Truthy(Lookup(row, ReferralPath))
    ensures Truthy(Shape(row).position) && Shape(row).position == Lookup(row, PositionPath)
    ensures Shape(row).company == Lookup(row, CompanyPath) && Shape(row).website == Lookup(row, WebsitePath)
    ensures Shape(row).status == ConvertStatus(Lookup(row, StatusPath))
    ensures Truthy(Lookup(row, LocationPath)) ==> Shape(row).location == Lookup(row, LocationPath)
    ensures !Truthy(Lookup(row, LocationPath)) ==> Shape(row).location == JStr("")
    ensures Shape(row).date == FormatDate(Lookup(row, DatePath))
  {
  }

  predicate AllDecodable(rows: seq<Json>) { forall t :: 0 <= t < |rows| ==> Decodable(rows[t]) }

  /** What the loop body yields for one row: its record, or nothing when the
      position is falsy (the `continue`). */
  function RecordOf(row: Json): (r: Option<Job>)
    requires Decodable(row)
    ensures r.Some? <==> HasPosition(row)
  {
    if HasPosition(row) then Some(Shape(row)) else None
  }

  /** A row that is a string, as iterating a dict (its keys) or a string (its
      characters) yields, raises nothing and gives no record: every lookup on
      it is `None`. */
  lemma StringRowSkipped(s: string)
    ensures Decodable(JStr(s)) && RecordOf(JStr(s)) == None
  {
  }

  /** `RecordOf` of every row, position by position. */
  function RecordsOf(rows: seq<Json>): (r: seq<Option<Job>>)
    requires AllDecodable(rows)
    ensures |r| == |rows|
    ensures forall t :: 0 <= t < |rows| ==> r[t] == RecordOf(rows[t])
  {
    if rows == [] then []
    else
      var init := rows[..|rows| - 1];
      assert AllDecodable(init) by {
        forall t | 0 <= t < |init| ensures Decodable(init[t]) { assert init[t] == rows[t]; }
      }
      RecordsOf(init) + [RecordOf(rows[|rows| - 1])]
  }

  /** The present records, in their original order. */
  function Collect(opts: seq<Option<Job>>): (r: seq<Job>)
    ensures |r| <= |opts|
    ensures forall t :: 0 <= t < |opts| && opts[t].Some? ==> opts[t].value in r
    ensures forall x :: x in r ==> Some(x) in opts
  {
    if opts == [] then []
    else
      var init := opts[..|opts| - 1];
      var last := opts[|opts| - 1];
      assert forall t :: 0 <= t < |init| ==> init[t] == opts[t];
      assert forall o :: o in init ==> o in opts;
      Collect(init) + (if last.Some? then [last.value] else [])
  }

  /** Collecting distributes over concatenation: the input order is kept. */
  lemma {:induction false} CollectAppend(a: seq<Option<Job>>, b: seq<Option<Job>>)
    ensures Collect(a + b) == Collect(a) + Collect(b)
    decreases |b|
  {
    if b == [] {
      assert a + b == a;
    } else {
      var init := b[..|b| - 1];
      var last := b[|b| - 1];
      var tail := if last.Some? then [last.value] else [];
      CollectAppend(a, init);
      assert (a + b)[..|a + b| - 1] == a + init;
      assert (a + b)[|a + b| - 1] == last;
      assert Collect(a + b) == Collect(a + init) + tail;
      assert Collect(b) == Collect(init) + tail;
    }
  }

  /** The indices of the present entries, in increasing order: an independent
      description of which entries `Collect` keeps. */
  function Present(opts: seq<Option<Job>>): (ps: seq<nat>)
    ensures forall t :: 0 <= t < |ps| ==> ps[t] < |opts| && opts[ps[t]].Some?
    ensures forall s, t :: 0 <= s < t < |ps| ==> ps[s] < ps[t]
    ensures forall u :: 0 <= u < |opts| && opts[u].Some? ==> u in ps
  {
    if opts == [] then []
    else
      var n := |opts| - 1;
      var ps := Present(opts[..n]);
      assert forall t :: 0 <= t < |ps| ==> opts[..n][ps[t]] == opts[ps[t]];
      ps + (if opts[n].Some? then [n] else [])
  }

  /** `Collect` keeps the present entries and nothing else, each once, in
      their original order: its `t`-th record is the value at the `t`-th
      present index. */
  lemma {:induction false} CollectIsPresent(opts: seq<Option<Job>>)
    ensures |Collect(opts)| == |Present(opts)|
    ensures forall t :: 0 <= t < |Present(opts)| ==> Collect(opts)[t] == opts[Present(opts)[t]].value
  {
    if opts != [] {
      var n := |opts| - 1;
      var init := opts[..n];
      CollectIsPresent(init);
      var c, p := Collect(init), Present(init);
      var ctl := if opts[n].Some? then [opts[n].value] else [];
      var ptl := if opts[n].Some? then [n] else [];
      assert Collect(opts) == c + ctl;
      assert Present(opts) == p + ptl;
      forall t | 0 <= t < |Present(opts)|
        ensures Collect(opts)[t] == opts[Present(opts)[t]].value
      {
        if t < |p| {
          assert init[p[t]] == opts[p[t]];
        }
      }
    }
  }

  /** The records `get_database` outputs are exactly those of the rows with a
      truthy position: each such row's record is among them, and each of them
      is the record of such a row. */
  lemma {:induction false} CollectedRecords(rows: seq<Json>)
    requires AllDecodable(rows)
    ensures forall t :: 0 <= t < |rows| && HasPosition(rows[t]) ==> Shape(rows[t]) in Collect(RecordsOf(rows))
    ensures forall x :: x in Collect(RecordsOf(rows)) ==>
      exists t :: 0 <= t < |rows| && HasPosition(rows[t]) && x == Shape(rows[t])
  {
    var opts := RecordsOf(rows);
    forall x | x in Collect(opts)
      ensures exists t :: 0 <= t < |rows| && HasPosition(rows[t]) && x == Shape(rows[t])
    {
      assert Some(x) in opts;
      var t :| 0 <= t < |opts| && opts[t] == Some(x);
      assert RecordOf(rows[t]) == Some(x);
    }
  }

  /** The values a Python `for` loop can iterate: a list (its items), a dict
      (its keys) and a string (its characters). */
  predicate Iterable(v: Json) { v.JArr? || v.JObj? || v.JStr? }

  /** `content["results"]` can be fetched and iterated without raising. */
  predicate HasResults(content: Json) {
    content.JObj? && "results" in content.fields && Iterable(content.fields["results"])
  }

  const Paths: seq<seq<string>> :=
    [StatusPath, LocationPath, CompanyPath, WebsitePath, DatePath, PositionPath, ReferralPath]

  /** Each of the seven dotted strings of the source splits into its path. */
  lemma PathSplit(k: nat)
    requires k < |Paths|
    ensures |Paths[k]| >= 1 && Split(Join(Paths[k])) == Paths[k]
  {
    SplitJoin(Paths[k]);
  }

  /** The body of the `get_database` loop for one row: the seven lookups, the
      skip of a row without a position, and the formatting of a kept row. */
  method RecordFromRow(row: Json) returns (keep: bool, job: Job)
    requires Decodable(row)
    ensures keep == HasPosition(row)
    ensures keep ==> job == Shape(row)
  {
    PathSplit(0);
    PathSplit(1);
    PathSplit(2);
    PathSplit(3);
    PathSplit(4);
    PathSplit(5);
    PathSplit(6);
    var interviewStage := SafeGet(row, Join(StatusPath));
    var location := SafeGet(row, Join(LocationPath));
    var company := SafeGet(row, Join(CompanyPath));
    var website := SafeGet(row, Join(WebsitePath));
    var date := SafeGet(row, Join(DatePath));
    var position := SafeGet(row, Join(PositionPath));
    var referral := SafeGet(row, Join(ReferralPath));
    job := Job(JNull, JNull, JNull, JNull, JNull, JNull, JNull, JNull);
    if !Truthy(position) {
      return false, job;
    }
    var ref := ConvertBoolean(referral);
    var status := ConvertStatus(interviewStage);
    var formattedDate := JNull;
    if Truthy(date) {
      formattedDate := if date.JStr? then JStr(DropFive(date.s)) else JArr(DropFive(date.items));
    }
    if !Truthy(location) {
      location := JStr("");
    }
    keep := true;
    job := Job(formattedDate, JStr("Job"), company, position, status, location, JStr(ref), website);
  }

  /** Going from the first `k` rows to the first `k + 1` adds the record of
      row `k` when it has a position. */
  lemma CollectNext(rows: seq<Json>, k: nat)
    requires k < |rows| && AllDecodable(rows)
    ensures AllDecodable(rows[..k]) && AllDecodable(rows[..k + 1])
    ensures Collect(RecordsOf(rows[..k + 1])) ==
      Collect(RecordsOf(rows[..k])) + (if HasPosition(rows[k]) then [Shape(rows[k])] else [])
  {
    assert forall t :: 0 <= t < k + 1 ==> rows[..k + 1][t] == rows[t];
    assert rows[..k + 1][..k] == rows[..k];
    assert RecordsOf(rows[..k + 1]) == RecordsOf(rows[..k]) + [RecordOf(rows[k])];
    CollectAppend(RecordsOf(rows[..k]), [RecordOf(rows[k])]);
  }

  /** `get_database(content)`: one record per row with a truthy position, in
      input order; rows without a position are skipped. A dict or a string in
      place of the list yields only strings, which are all skipped. */
  method GetDatabase(content: Json) returns (rows: seq<Job>)
    requires HasResults(content)
    requires content.fields["results"].JArr? ==> AllDecodable(content.fields["results"].items)
    ensures content.fields["results"].JArr? ==> rows == Collect(RecordsOf(content.fields["results"].items))
    ensures !content.fields["results"].JArr? ==> rows == []
  {
    rows := [];
    if !content.fields["results"].JArr? {
      // every element is a string, and each gives no record (StringRowSkipped)
      return;
    }
    var results := content.fields["results"].items;
    var k := 0;
    while k < |results|
      invariant 0 <= k <= |results|
      invariant AllDecodable(results[..k]) && rows == Collect(RecordsOf(results[..k]))
    {
      CollectNext(results, k);
      var keep, job := RecordFromRow(results[k]);
      if keep {
        rows := rows + [job];
      }
      k := k + 1;
    }
    assert results[..k] == results;
  }
}
