/** The reconciliation in `main`: the refresh walk over both lists (mode "r")
    and the tail check (mode "a"), producing the writes as mutation values. */
module Reconcile {
  import opened Json
  import opened Records
  import opened Wrappers

  /** Rows 1 and 2 of the sheet sit above the data: the row dict at index `p`
      is sheet row `p + 3`. */
  const RowOffset: int := 3

  /** How a run ends: every source record processed, or stopped when the sheet
      cursor ran off the end (the `IndexError` branch), after the writes
      already issued and with the cursor at which it stopped. */
  datatype Outcome =
    | Done(mutations: seq<Mutation>)
    | Aborted(mutations: seq<Mutation>, cursor: int)

  // ---------------------------------------------------------------------------
  // Which rows are compared: `compare_rows` raises `KeyError` on a compared
  // row that lacks a key, so each of these says that no compared row does
  // ---------------------------------------------------------------------------

  /** The forward probe from `lo` compares rows up to the first match. */
  predicate ForwardKeys(job: Job, data: seq<SheetRow>, lo: nat)
    decreases |data| - lo
  {
    lo < |data| ==> HasCompareKeys(data[lo]) && (SameJob(job, data[lo]) || ForwardKeys(job, data, lo + 1))
  }

  /** The backward probe from `hi` compares rows down to the last match at or below it. */
  predicate BackwardKeys(job: Job, data: seq<SheetRow>, hi: int)
    requires hi < |data|
    decreases hi + 1
  {
    hi >= 0 ==> HasCompareKeys(data[hi]) && (SameJob(job, data[hi]) || BackwardKeys(job, data, hi - 1))
  }

  // ---------------------------------------------------------------------------
  // The reference definition: what iteration k of the refresh loop writes
  // ---------------------------------------------------------------------------

  /** The first sheet index at or after `lo` holding the same job. */
  function Forward(job: Job, data: seq<SheetRow>, lo: nat): (r: Option<nat>)
    requires ForwardKeys(job, data, lo)
    ensures r.Some? ==> lo <= r.value < |data| && HasCompareKeys(data[r.value]) && SameJob(job, data[r.value])
    ensures r.Some? ==> forall t :: lo <= t < r.value ==> HasCompareKeys(data[t]) && !SameJob(job, data[t])
    ensures r.None? ==> forall t :: lo <= t < |data| ==> HasCompareKeys(data[t]) && !SameJob(job, data[t])
    decreases |data| - lo
  {
    if lo >= |data| then None
    else if SameJob(job, data[lo]) then Some(lo)
    else Forward(job, data, lo + 1)
  }

  /** The last sheet index at or before `hi` holding the same job. */
  function Backward(job: Job, data: seq<SheetRow>, hi: int): (r: Option<nat>)
    requires hi < |data| && BackwardKeys(job, data, hi)
    ensures r.Some? ==> r.value <= hi && HasCompareKeys(data[r.value]) && SameJob(job, data[r.value])
    ensures r.Some? ==> forall t :: r.value < t <= hi ==> HasCompareKeys(data[t]) && !SameJob(job, data[t])
    ensures r.None? ==> forall t :: 0 <= t <= hi ==> HasCompareKeys(data[t]) && !SameJob(job, data[t])
    decreases hi + 1
  {
    if hi < 0 then None
    else if SameJob(job, data[hi]) then Some(hi)
    else Backward(job, data, hi - 1)
  }

  /** Iteration `k` compares `job` with row `k`, and on a mismatch the rows
      its probes reach: none of them raises `KeyError`. */
  predicate StepKeys(job: Job, data: seq<SheetRow>, k: nat)
    requires k < |data|
  {
    HasCompareKeys(data[k]) &&
    (!SameJob(job, data[k]) ==>
       ForwardKeys(job, data, k + 1) && (Forward(job, data, k + 1).None? ==> BackwardKeys(job, data, k)))
  }

  /** What one iteration writes when it compares `job` with sheet index `k`:
      nothing for an up-to-date match, an update for a stale one; on a
      mismatch the forward probe first (update only if stale), then the
      backward probe (update whatever the verdict), else an append. */
  function Step(job: Job, data: seq<SheetRow>, k: nat): seq<Mutation>
    requires k < |data| && StepKeys(job, data, k)
  {
    var c := CompareRows(job, data[k]);
    if c == 0 then []
    else if c == 1 then [UpdateAt(k + RowOffset, job)]
    else Probe(job, data, k)
  }

  /** What the mismatch branch at sheet index `k` writes. */
  function Probe(job: Job, data: seq<SheetRow>, k: nat): seq<Mutation>
    requires k < |data| && ForwardKeys(job, data, k + 1)
    requires Forward(job, data, k + 1).None? ==> BackwardKeys(job, data, k)
  {
    match Forward(job, data, k + 1)
    case Some(p) => if CompareRows(job, data[p]) == 1 then [UpdateAt(p + RowOffset, job)] else []
    case None =>
      match Backward(job, data, k)
      case Some(q) => [UpdateAt(q + RowOffset, job)]
      case None => [Append(job)]
  }

  /** None of the first `k` iterations raises `KeyError`. */
  predicate PlanKeys(src: seq<Job>, data: seq<SheetRow>, k: nat)
    requires k <= |src| && k <= |data|
  {
    k == 0 || (PlanKeys(src, data, k - 1) && StepKeys(src[|src| - k], data, k - 1))
  }

  /** The writes of the first `k` iterations; iteration `k` pairs the source
      record at Python index `-(k + 1)`, `k + 1` places from the end, with
      sheet index `k`. */
  function Plan(src: seq<Job>, data: seq<SheetRow>, k: nat): seq<Mutation>
    requires k <= |src| && k <= |data| && PlanKeys(src, data, k)
  {
    if k == 0 then [] else Plan(src, data, k - 1) + Step(src[|src| - k], data, k - 1)
  }

  /** No iteration the refresh runs raises `KeyError`: the iterations up to
      the end of the source or the end of the sheet, whichever comes first. */
  predicate RefreshKeys(src: seq<Job>, data: seq<SheetRow>) {
    if |src| <= |data| then PlanKeys(src, data, |src|) else PlanKeys(src, data, |data|)
  }

  /** The outcome of the refresh: it stops at iteration `|data|` exactly when
      the source is longer than the sheet. */
  function RefreshSpec(src: seq<Job>, data: seq<SheetRow>): Outcome
    requires RefreshKeys(src, data)
  {
    if |src| <= |data| then Done(Plan(src, data, |src|))
    else Aborted(Plan(src, data, |data|), |data|)
  }

  lemma {:induction false} PlanKeysPrefix(src: seq<Job>, data: seq<SheetRow>, n: nat, k: nat)
    requires k <= n <= |src| && n <= |data| && PlanKeys(src, data, n)
    ensures PlanKeys(src, data, k)
    decreases n - k
  {
    if k < n {
      PlanKeysPrefix(src, data, n - 1, k);
    }
  }

  /** Iteration `k` of a refresh that does not raise `KeyError` appends what
      `Step` writes for `notion_data[-(k + 1)]`. */
  lemma PlanNext(src: seq<Job>, data: seq<SheetRow>, k: nat)
    requires k < |src| && k < |data| && RefreshKeys(src, data)
    ensures PlanKeys(src, data, k + 1) && StepKeys(PyIndex(src, -(k + 1)), data, k)
    ensures Plan(src, data, k + 1) == Plan(src, data, k) + Step(PyIndex(src, -(k + 1)), data, k)
  {
    PlanKeysPrefix(src, data, if |src| <= |data| then |src| else |data|, k + 1);
  }

  // ---------------------------------------------------------------------------
  // The refresh loop
  // ---------------------------------------------------------------------------

  /** The mismatch branch of the refresh loop, entered with the cursor at
      `originalI` where the record is another job: the forward probe over
      `originalI + 1 ..`, then, if it fails, the backward probe from
      `originalI` down to 0, then the append. Every path leaves the cursor
      at `originalI + 1`. */
  method ResolveMismatch(job: Job, data: seq<SheetRow>, originalI: int) returns (writes: seq<Mutation>, i: int)
    requires 0 <= originalI < |data| && StepKeys(job, data, originalI)
    requires CompareRows(job, data[originalI]) == -1
    ensures writes == Step(job, data, originalI)
    ensures i == originalI + 1
  {
    writes := [];
    var r := -1;
    i := originalI + 1;
    while r == -1 && i < |data|
      invariant originalI + 1 <= i <= |data|
      invariant r == -1 || r == 0 || r == 1
      invariant r == -1 ==> ForwardKeys(job, data, i) && Forward(job, data, originalI + 1) == Forward(job, data, i)
      invariant r != -1 ==>
        Forward(job, data, originalI + 1) == Some(i - 1) && HasCompareKeys(data[i - 1]) &&
        r == CompareRows(job, data[i - 1])
      decreases |data| - i
    {
      r := CompareRows(job, data[i]);
      i := i + 1;
    }
    if r == -1 {
      i := originalI;
      while r == -1 && i >= 0
        invariant -1 <= i <= originalI
        invariant r == -1 || r == 0 || r == 1
        invariant r == -1 ==> BackwardKeys(job, data, i) && Backward(job, data, originalI) == Backward(job, data, i)
        invariant r != -1 ==>
          Backward(job, data, originalI) == Some(i + 1) && HasCompareKeys(data[i + 1]) &&
          r == CompareRows(job, data[i + 1])
        decreases i + 1
      {
        r := CompareRows(job, data[i]);
        i := i - 1;
      }
      if r == 1 || r == 0 {
        // the loop stepped one below the match
        writes := [UpdateAt(i + 4, job)];
        i := originalI;
        i := i + 1;
        return;
      }
      writes := [Append(job)];
      i := originalI;
      i := i + 1;
      return;
    } else if r == 1 {
      // the loop stepped one past the match
      writes := [UpdateAt(i + 2, job)];
    }
    i := originalI;
    i := i + 1;
  }

  /** The body of the refresh loop for the record `job` at cursor `i`: no
      write for an up-to-date match, an update of sheet row `i + 3` for a
      stale one, the probes on a mismatch; the cursor moves on by one. */
  method Iteration(job: Job, data: seq<SheetRow>, i: int) returns (writes: seq<Mutation>, next: int)
    requires 0 <= i < |data| && StepKeys(job, data, i)
    ensures writes == Step(job, data, i)
    ensures next == i + 1
  {
    var result := CompareRows(job, data[i]);
    if result == 0 {
      writes := [];
      next := i + 1;
    } else if result == 1 {
      writes := [UpdateAt(i + 3, job)];
      next := i + 1;
    } else {
      writes, next := ResolveMismatch(job, data, i);
    }
  }

  /** The refresh branch of `main` (choice "r"): cursor `i` walks the sheet
      forward, `j` walks the Notion rows from -1 downward (Python indexing);
      each iteration advances `i` by one and decrements `j` once. */
  method Refresh(src: seq<Job>, data: seq<SheetRow>) returns (out: Outcome)
    requires RefreshKeys(src, data)
    ensures out == RefreshSpec(src, data)
  {
    var i: int := 0;
    var j: int := -1;
    var muts: seq<Mutation> := [];
    var k := 0;
    while k < |src|
      invariant 0 <= k <= |src| && k <= |data|
      invariant i == k
      invariant j == -(k + 1)
      invariant PlanKeys(src, data, k) && muts == Plan(src, data, k)
    {
      if i >= |data| {
        // data[i] raises IndexError: stop, keeping what was written.
        assert k == |data| && |src| > |data|;
        return Aborted(muts, i);
      }
      var job := PyIndex(src, j);
      PlanNext(src, data, k);
      var writes;
      writes, i := Iteration(job, data, i);
      muts := muts + writes;
      j := j - 1;
      k := k + 1;
    }
    assert k == |src| && |src| <= |data|;
    out := Done(muts);
  }

  // ---------------------------------------------------------------------------
  // Properties of the refresh
  // ---------------------------------------------------------------------------

  /** The forward probe passes rows that all carry the keys and hold other jobs. */
  lemma {:induction false} ForwardNoMatch(job: Job, data: seq<SheetRow>, lo: nat)
    requires forall t :: lo <= t < |data| ==> HasCompareKeys(data[t]) && !SameJob(job, data[t])
    ensures ForwardKeys(job, data, lo) && Forward(job, data, lo) == None
    decreases |data| - lo
  {
    if lo < |data| {
      ForwardNoMatch(job, data, lo + 1);
    }
  }

  /** The backward probe from `hi` stops at `q` when the rows above `q` hold other jobs. */
  lemma {:induction false} BackwardMatch(job: Job, data: seq<SheetRow>, hi: int, q: nat)
    requires q <= hi < |data| && HasCompareKeys(data[q]) && SameJob(job, data[q])
    requires forall t :: q < t <= hi ==> HasCompareKeys(data[t]) && !SameJob(job, data[t])
    ensures BackwardKeys(job, data, hi) && Backward(job, data, hi) == Some(q)
    decreases hi
  {
    if hi > q {
      BackwardMatch(job, data, hi - 1, q);
    }
  }

  lemma {:induction false} ForwardKeysAll(job: Job, data: seq<SheetRow>, lo: nat)
    requires AllCompareKeys(data)
    ensures ForwardKeys(job, data, lo)
    decreases |data| - lo
  {
    if lo < |data| {
      ForwardKeysAll(job, data, lo + 1);
    }
  }

  lemma {:induction false} BackwardKeysAll(job: Job, data: seq<SheetRow>, hi: int)
    requires AllCompareKeys(data) && hi < |data|
    ensures BackwardKeys(job, data, hi)
    decreases hi + 1
  {
    if hi >= 0 {
      BackwardKeysAll(job, data, hi - 1);
    }
  }

  lemma {:induction false} PlanKeysAll(src: seq<Job>, data: seq<SheetRow>, k: nat)
    requires AllCompareKeys(data) && k <= |src| && k <= |data|
    ensures PlanKeys(src, data, k)
  {
    if k > 0 {
      PlanKeysAll(src, data, k - 1);
      ForwardKeysAll(src[|src| - k], data, k);
      BackwardKeysAll(src[|src| - k], data, k - 1);
    }
  }

  /** A sheet whose every row carries the keys `compare_rows` reads never
      makes the refresh raise `KeyError`. */
  lemma AllKeysRefreshKeys(src: seq<Job>, data: seq<SheetRow>)
    requires AllCompareKeys(data)
    ensures RefreshKeys(src, data)
  {
    if |src| <= |data| {
      PlanKeysAll(src, data, |src|);
    } else {
      PlanKeysAll(src, data, |data|);
    }
  }

  /** The refresh stops early exactly when the source is longer than the
      sheet, at cursor `len(data)`, after the writes of the first `len(data)`
      iterations and none in the stopping one. */
  lemma RefreshAbortsIffLonger(src: seq<Job>, data: seq<SheetRow>)
    requires RefreshKeys(src, data)
    ensures RefreshSpec(src, data).Aborted? <==> |src| > |data|
    ensures RefreshSpec(src, data).Aborted? ==>
      RefreshSpec(src, data).cursor == |data| && RefreshSpec(src, data).mutations == Plan(src, data, |data|)
    ensures RefreshSpec(src, data).Done? ==> RefreshSpec(src, data).mutations == Plan(src, data, |src|)
  {
  }

  /** A write is sound against the sheet: an update targets the sheet row of an
      index holding the same job; an append is for a job the sheet lacks. */
  predicate Sound(m: Mutation, data: seq<SheetRow>) {
    match m
    case UpdateAt(row, job) =>
      RowOffset <= row < |data| + RowOffset && HasCompareKeys(data[row - RowOffset]) &&
      SameJob(job, data[row - RowOffset])
    case Append(job) => forall t :: 0 <= t < |data| ==> HasCompareKeys(data[t]) && !SameJob(job, data[t])
  }

  /** One iteration writes at most once, writes only the record it compares,
      and every write is sound. */
  lemma StepSound(job: Job, data: seq<SheetRow>, k: nat)
    requires k < |data| && StepKeys(job, data, k)
    ensures |Step(job, data, k)| <= 1
    ensures forall t :: 0 <= t < |Step(job, data, k)| ==>
      Step(job, data, k)[t].job == job && Sound(Step(job, data, k)[t], data)
  {
  }

  /** An append is written exactly when no sheet row holds the same job. */
  lemma StepAppendsExactlyUnmatched(job: Job, data: seq<SheetRow>, k: nat)
    requires k < |data| && StepKeys(job, data, k)
    ensures Step(job, data, k) == [Append(job)] <==>
      forall t :: 0 <= t < |data| ==> HasCompareKeys(data[t]) && !SameJob(job, data[t])
  {
  }

  /** The mutations of the first `k` iterations: at most one per iteration, each
      sound, each for the source record of its iteration. */
  lemma {:induction false} PlanSound(src: seq<Job>, data: seq<SheetRow>, k: nat)
    requires k <= |src| && k <= |data| && PlanKeys(src, data, k)
    ensures |Plan(src, data, k)| <= k
    ensures forall t :: 0 <= t < |Plan(src, data, k)| ==> Sound(Plan(src, data, k)[t], data)
    ensures forall t :: 0 <= t < |Plan(src, data, k)| ==> Plan(src, data, k)[t].job in src[|src| - k..]
  {
    if k > 0 {
      PlanSound(src, data, k - 1);
      StepSound(src[|src| - k], data, k - 1);
      var before := Plan(src, data, k - 1);
      var step := Step(src[|src| - k], data, k - 1);
      assert Plan(src, data, k) == before + step;
      forall t | 0 <= t < |before| ensures before[t].job in src[|src| - k..] {
        assert before[t].job in src[|src| - (k - 1)..];
      }
      forall t | 0 <= t < |step| ensures step[t].job in src[|src| - k..] {
        assert step[t].job == src[|src| - k] == src[|src| - k..][0];
      }
    }
  }

  /** One iteration writes its record at most once and no other record. */
  lemma StepJobs(job: Job, data: seq<SheetRow>, k: nat)
    requires k < |data| && StepKeys(job, data, k)
    ensures Step(job, data, k) == [] || JobsOf(Step(job, data, k)) == [job]
  {
    StepSound(job, data, k);
  }

  /** Adding at most one write for `x` to writes within `rest` stays within `[x] + rest`. */
  lemma JobsWithin(whole: seq<Mutation>, before: seq<Mutation>, step: seq<Mutation>,
                   s: seq<Job>, x: Job, rest: seq<Job>)
    requires whole == before + step && s == [x] + rest
    requires multiset(JobsOf(before)) <= multiset(rest)
    requires step == [] || JobsOf(step) == [x]
    ensures multiset(JobsOf(whole)) <= multiset(s)
  {
    assert JobsOf(before + step) == JobsOf(before) + JobsOf(step);
    if step == [] {
      assert JobsOf(step) == [];
    }
  }

  /** The first `k` iterations write each processed record at most as often
      as it occurs among them. */
  lemma {:induction false} PlanJobs(src: seq<Job>, data: seq<SheetRow>, k: nat)
    requires k <= |src| && k <= |data| && PlanKeys(src, data, k)
    ensures multiset(JobsOf(Plan(src, data, k))) <= multiset(src[|src| - k..])
  {
    if k > 0 {
      var j := k - 1;
      PlanJobs(src, data, j);
      var x := src[|src| - k];
      StepJobs(x, data, j);
      var rest := src[|src| - j..];
      assert src[|src| - k..] == [x] + rest;
      JobsWithin(Plan(src, data, k), Plan(src, data, j), Step(x, data, j), src[|src| - k..], x, rest);
    }
  }

  /** No duplication: `Refresh` updates only rows holding the same job and
      appends only jobs absent from the sheet, and writes each record at most
      as often as it occurs in the source. */
  lemma RefreshSound(src: seq<Job>, data: seq<SheetRow>)
    requires RefreshKeys(src, data)
    ensures |RefreshSpec(src, data).mutations| <= |src|
    ensures forall t :: 0 <= t < |RefreshSpec(src, data).mutations| ==>
      Sound(RefreshSpec(src, data).mutations[t], data)
    ensures multiset(JobsOf(RefreshSpec(src, data).mutations)) <= multiset(src)
  {
    if |src| <= |data| {
      PlanSound(src, data, |src|);
      PlanJobs(src, data, |src|);
      assert src[|src| - |src|..] == src;
    } else {
      PlanSound(src, data, |data|);
      PlanJobs(src, data, |data|);
      var i := |src| - |data|;
      assert src == src[..i] + src[i..];
      assert multiset(src) == multiset(src[..i]) + multiset(src[i..]);
    }
  }

  /** If each record to be processed already sits up to date at its mirrored
      sheet index, the first `k` iterations compare only those rows and write
      nothing. */
  lemma {:induction false} PlanMirrorEmpty(src: seq<Job>, data: seq<SheetRow>, k: nat)
    requires k <= |src| && k <= |data|
    requires forall t :: 0 <= t < k ==> HasCompareKeys(data[t]) && CompareRows(src[|src| - 1 - t], data[t]) == 0
    ensures PlanKeys(src, data, k) && Plan(src, data, k) == []
  {
    if k > 0 {
      PlanMirrorEmpty(src, data, k - 1);
      assert HasCompareKeys(data[k - 1]) && CompareRows(src[|src| - k], data[k - 1]) == 0 by {
        assert |src| - 1 - (k - 1) == |src| - k;
      }
    }
  }

  /** Against a sheet that mirrors the source and is up to date the refresh
      finishes and writes nothing. */
  lemma RefreshOfSyncedSheetIsEmpty(src: seq<Job>, data: seq<SheetRow>)
    requires |src| <= |data|
    requires forall t :: 0 <= t < |src| ==> HasCompareKeys(data[t]) && CompareRows(src[|src| - 1 - t], data[t]) == 0
    ensures RefreshKeys(src, data) && RefreshSpec(src, data) == Done([])
  {
    PlanMirrorEmpty(src, data, |src|);
  }

  /** A stale row at the mirrored index is overwritten in place, at that index plus 3. */
  lemma StepStaleAtCursor(job: Job, data: seq<SheetRow>, k: nat)
    requires k < |data| && HasCompareKeys(data[k])
    requires SameJob(job, data[k]) && !UpToDate(job, data[k])
    ensures StepKeys(job, data, k) && Step(job, data, k) == [UpdateAt(k + 3, job)]
  {
  }

  /** The forward probe wins over the backward one: a job also present after
      the cursor is never written at an earlier row, even when an earlier row
      holds it too. */
  lemma StepPrefersForward(job: Job, data: seq<SheetRow>, k: nat, q: nat)
    requires q < k < |data| && StepKeys(job, data, k)
    requires !SameJob(job, data[k]) && HasCompareKeys(data[q]) && SameJob(job, data[q])
    requires exists p :: k < p < |data| && HasCompareKeys(data[p]) && SameJob(job, data[p])
    ensures forall t :: 0 <= t < |Step(job, data, k)| ==>
      Step(job, data, k)[t].UpdateAt? && Step(job, data, k)[t].row > k + 3
  {
    var p :| k < p < |data| && HasCompareKeys(data[p]) && SameJob(job, data[p]);
    assert Forward(job, data, k + 1).Some?;
  }

  /** The backward probe rewrites a match even when it is up to date. */
  lemma StepBackwardRewritesFresh(job: Job, data: seq<SheetRow>, k: nat, q: nat)
    requires q < k < |data|
    requires forall t :: q < t < |data| ==> HasCompareKeys(data[t]) && !SameJob(job, data[t])
    requires HasCompareKeys(data[q]) && SameJob(job, data[q]) && UpToDate(job, data[q])
    ensures StepKeys(job, data, k) && Step(job, data, k) == [UpdateAt(q + 3, job)]
  {
    ForwardNoMatch(job, data, k + 1);
    BackwardMatch(job, data, k, q);
  }

  /** A reordered sheet: the oldest record `a` sits one row later than the
      cursor, behind an unrelated row `c`. The forward probe finds it and its
      stale row is overwritten at sheet row 4; the next record `b`, found
      forward and up to date, is left alone. Nothing is appended. */
  lemma ReorderedSheetScenario(a: Job, b: Job, c: SheetRow, rowA: SheetRow, rowB: SheetRow)
    requires HasCompareKeys(c) && HasCompareKeys(rowA) && HasCompareKeys(rowB)
    requires !SameJob(a, c) && SameJob(a, rowA) && !UpToDate(a, rowA)
    requires !SameJob(b, rowA) && SameJob(b, rowB) && UpToDate(b, rowB)
    ensures RefreshKeys([b, a], [c, rowA, rowB]) && RefreshSpec([b, a], [c, rowA, rowB]) == Done([UpdateAt(4, a)])
  {
    var data := [c, rowA, rowB];
    assert ForwardKeys(a, data, 1) && Forward(a, data, 1) == Some(1);
    assert ForwardKeys(b, data, 2) && Forward(b, data, 2) == Some(2);
    assert StepKeys(a, data, 0) && Step(a, data, 0) == [UpdateAt(4, a)];
    assert StepKeys(b, data, 1) && Step(b, data, 1) == [];
    assert PlanKeys([b, a], data, 1);
    assert PlanKeys([b, a], data, 2);
    assert Plan([b, a], data, 2) == Plan([b, a], data, 1) + Step(b, data, 1);
    assert Plan([b, a], data, 1) == Plan([b, a], data, 0) + Step(a, data, 0);
  }

  /** Not idempotent: both records are on the sheet and up to date, but the
      newer record `a` (first in the source, which runs newest first) sits
      above the older `b`, against the mirrored order the walk expects. The
      forward probe for `a` from index 1 finds nothing, so the backward probe
      finds its fresh row and rewrites it. The sheet is the same afterwards,
      so every later run issues this write again. */
  lemma FreshRowRewrittenEveryRun(a: Job, b: Job, rowA: SheetRow, rowB: SheetRow)
    requires HasCompareKeys(rowA) && HasCompareKeys(rowB)
    requires SameJob(a, rowA) && UpToDate(a, rowA) && SameJob(b, rowB) && UpToDate(b, rowB)
    requires !SameJob(b, rowA) && !SameJob(a, rowB)
    ensures RefreshKeys([a, b], [rowA, rowB]) && RefreshSpec([a, b], [rowA, rowB]) == Done([UpdateAt(3, a)])
  {
    var data := [rowA, rowB];
    assert ForwardKeys(b, data, 1) && Forward(b, data, 1) == Some(1);
    assert StepKeys(b, data, 0) && Step(b, data, 0) == [];
    ForwardNoMatch(a, data, 2);
    BackwardMatch(a, data, 1, 0);
    assert StepKeys(a, data, 1) && Step(a, data, 1) == [UpdateAt(3, a)];
    assert PlanKeys([a, b], data, 1);
    assert PlanKeys([a, b], data, 2);
    assert Plan([a, b], data, 2) == Plan([a, b], data, 1) + Step(a, data, 1);
    assert Plan([a, b], data, 1) == Plan([a, b], data, 0) + Step(b, data, 0);
  }

  /** A new application `n` newer than everything on the sheet: the refresh
      runs out of sheet rows and stops at cursor 1 with nothing written, while
      the tail check appends it. */
  lemma NewApplicationScenario(n: Job, a: Job, rowA: SheetRow)
    requires HasCompareKeys(rowA) && CompareRows(a, rowA) == 0 && !SameJob(n, rowA)
    ensures RefreshKeys([n, a], [rowA]) && RefreshSpec([n, a], [rowA]) == Aborted([], 1)
    ensures TailAsWritten([n, a], [rowA]) == [Append(n)]
  {
    assert PlanKeys([n, a], [rowA], 1);
    assert Plan([n, a], [rowA], 1) == Plan([n, a], [rowA], 0) + Step(a, [rowA], 0);
  }

  // ---------------------------------------------------------------------------
  // The tail check and the choice of mode
  // ---------------------------------------------------------------------------

  /** The "a" branch of `main` as written: compare the newest Notion record
      with the last sheet row; update at `len(data) + 3`, or append. */
  function TailAsWritten(src: seq<Job>, data: seq<SheetRow>): (r: seq<Mutation>)
    requires |src| > 0 && |data| > 0 && HasCompareKeys(data[|data| - 1])
    ensures |r| <= 1
  {
    var result := CompareRows(src[0], data[|data| - 1]);
    if result == 0 then []
    else if result == 1 then [UpdateAt(|data| + 3, src[0])]
    else [Append(src[0])]
  }

  /** The tail check with the sheet row of the last index, `len(data) + 2`. */
  function TailFixed(src: seq<Job>, data: seq<SheetRow>): (r: seq<Mutation>)
    requires |src| > 0 && |data| > 0 && HasCompareKeys(data[|data| - 1])
    ensures |r| <= 1
  {
    var result := CompareRows(src[0], data[|data| - 1]);
    if result == 0 then []
    else if result == 1 then [UpdateAt(|data| - 1 + RowOffset, src[0])]
    else [Append(src[0])]
  }

  /** The tail verdicts: nothing when the last row is the same job up to date,
      an update when it is stale, an append when it is another job. */
  lemma TailVerdicts(src: seq<Job>, data: seq<SheetRow>)
    requires |src| > 0 && |data| > 0 && HasCompareKeys(data[|data| - 1])
    ensures TailAsWritten(src, data) == [] <==> CompareRows(src[0], data[|data| - 1]) == 0
    ensures TailAsWritten(src, data) == [Append(src[0])] <==> !SameJob(src[0], data[|data| - 1])
    ensures TailAsWritten(src, data) == [UpdateAt(|data| + 3, src[0])] <==>
      CompareRows(src[0], data[|data| - 1]) == 1
  {
  }

  /** As written, a stale last row is written one row below itself: the
      update targets sheet row `len(data) + 3`, which belongs to no sheet index. */
  lemma TailAsWrittenMissesLastRow(src: seq<Job>, data: seq<SheetRow>)
    requires |src| > 0 && |data| > 0 && HasCompareKeys(data[|data| - 1])
    requires CompareRows(src[0], data[|data| - 1]) == 1
    ensures TailAsWritten(src, data) == [UpdateAt(|data| + 3, src[0])]
    ensures !Sound(TailAsWritten(src, data)[0], data)
  {
  }

  /** A one-record, one-row case where the two modes disagree: refresh
      updates sheet row 3, the tail check row 4. */
  lemma TailAndRefreshDisagree(job: Job, row: SheetRow)
    requires HasCompareKeys(row) && CompareRows(job, row) == 1
    ensures RefreshKeys([job], [row]) && RefreshSpec([job], [row]) == Done([UpdateAt(3, job)])
    ensures TailAsWritten([job], [row]) == [UpdateAt(4, job)]
  {
    assert PlanKeys([job], [row], 1);
    assert Plan([job], [row], 1) == Plan([job], [row], 0) + Step(job, [row], 0);
  }

  /** Corrected, the tail check writes soundly and agrees with what an
      iteration of the refresh at the last index writes for a matching job. */
  lemma TailFixedSound(src: seq<Job>, data: seq<SheetRow>)
    requires |src| > 0 && |data| > 0 && HasCompareKeys(data[|data| - 1])
    ensures forall t :: 0 <= t < |TailFixed(src, data)| && TailFixed(src, data)[t].UpdateAt? ==>
      Sound(TailFixed(src, data)[t], data)
    ensures SameJob(src[0], data[|data| - 1]) ==>
      StepKeys(src[0], data, |data| - 1) && TailFixed(src, data) == Step(src[0], data, |data| - 1)
  {
  }

  /** `main` after the two fetches: "r" refreshes, "a" checks the tail (with
      the corrected row of `TailFixed`), any other choice writes nothing. */
  method Sync(choice: string, src: seq<Job>, data: seq<SheetRow>) returns (out: Outcome)
    requires choice == "r" ==> RefreshKeys(src, data)
    requires choice == "a" ==> |src| > 0 && |data| > 0 && HasCompareKeys(data[|data| - 1])
    ensures choice == "r" ==> out == RefreshSpec(src, data)
    ensures choice == "a" ==> out == Done(TailFixed(src, data))
    ensures choice != "r" && choice != "a" ==> out == Done([])
  {
    if choice == "r" {
      out := Refresh(src, data);
    } else if choice == "a" {
      out := Done(TailFixed(src, data));
    } else {
      out := Done([]);
    }
  }
}
