/** Every row of the outbox settles: a measure that falls with each step, and a step that is always possible. */
module OutboxProgress {
  import opened Prelude
  import opened Outbox

  // ---------- the work that is left ----------

  /** The claims of this row that are still to be reported on. */
  function Unreported(held: set<Job>, i: nat, attempts: nat): (us: set<nat>)
  {
    set a | 1 <= a <= attempts && Job(i, a) in held
  }

  /** What is left for one row that is tried at most `most` times: two steps for each attempt to come, one for each report. */
  function Left(held: set<Job>, i: nat, r: OutRow, most: nat): nat
  {
    (if r.deleted || r.attempts > most then 0 else 2 * (most - r.attempts)) + |Unreported(held, i, r.attempts)|
  }

  function AllLeft(s: Box, most: nat): seq<nat>
  {
    seq(|s.rows|, i requires 0 <= i < |s.rows| => Left(s.held, i, s.rows[i], most))
  }

  function Sum(ns: seq<nat>): nat
  {
    if ns == [] then 0 else Sum(ns[..|ns|-1]) + ns[|ns|-1]
  }

  /** The steps that may still be done in this box. */
  function Measure(s: Box, most: nat): nat
  {
    Sum(AllLeft(s, most))
  }

  /** No row was taken over from a silent worker more than `lost` times. */
  ghost predicate TakenOverAtMost(rows: seq<OutRow>, lost: nat)
  {
    forall i :: 0 <= i < |rows| ==> rows[i].reclaims <= lost
  }

  lemma {:induction false} SumFalls(xs: seq<nat>, ys: seq<nat>)
    requires |xs| == |ys| && forall i :: 0 <= i < |xs| ==> ys[i] <= xs[i]
    ensures Sum(ys) <= Sum(xs)
    ensures (exists i :: 0 <= i < |xs| && ys[i] < xs[i]) ==> Sum(ys) < Sum(xs)
  {
    if xs != [] {
      var n := |xs| - 1;
      SumFalls(xs[..n], ys[..n]);
      assert ys[n] <= xs[n];
      forall i | 0 <= i < n && ys[i] < xs[i] ensures exists k :: 0 <= k < n && ys[..n][k] < xs[..n][k] {
        assert ys[..n][i] == ys[i] && xs[..n][i] == xs[i];
      }
    }
  }

  lemma {:induction false} SumIsPositive(xs: seq<nat>, i: nat)
    requires i < |xs| && xs[i] > 0
    ensures Sum(xs) > 0
  {
    if i < |xs| - 1 {
      SumIsPositive(xs[..|xs|-1], i);
    }
  }

  // ---------- every step uses some of it up ----------

  lemma SameUnreported(held: set<Job>, held': set<Job>, i: nat, attempts: nat)
    requires JobsOf(held', i) == JobsOf(held, i)
    ensures Unreported(held', i, attempts) == Unreported(held, i, attempts)
  {
    assert forall a :: Job(i, a) in held' <==> Job(i, a) in JobsOf(held', i);
    assert forall a :: Job(i, a) in held <==> Job(i, a) in JobsOf(held, i);
  }

  /** One more attempt and one more report to come, out of two steps. */
  lemma ClaimedRowFalls(held: set<Job>, held': set<Job>, i: nat, r: OutRow, clock: Time, most: nat)
    requires JobsOf(held', i) == JobsOf(held, i) + {Job(i, r.attempts + 1)} && !r.deleted && r.attempts < most
    ensures Left(held', i, ClaimRow(r, clock), most) < Left(held, i, r, most)
  {
    assert forall a :: Job(i, a) in held' <==> Job(i, a) in JobsOf(held', i);
    assert forall a :: Job(i, a) in held <==> Job(i, a) in JobsOf(held, i);
    assert Unreported(held', i, r.attempts + 1) == Unreported(held, i, r.attempts) + {r.attempts + 1};
  }

  lemma ReportedRowFalls(held: set<Job>, i: nat, attempt: nat, r: OutRow, r': OutRow, most: nat)
    requires Job(i, attempt) in held && 1 <= attempt <= r.attempts
    requires r'.attempts == r.attempts && r'.deleted == r.deleted
    ensures Left(held - {Job(i, attempt)}, i, r', most) < Left(held, i, r, most)
  {
    assert Unreported(held - {Job(i, attempt)}, i, r.attempts) == Unreported(held, i, r.attempts) - {attempt};
    assert attempt in Unreported(held, i, r.attempts);
  }

  /** A claim hands out one job for each row it takes. */
  lemma JobsOfClaimed(rows: seq<OutRow>, held: set<Job>, ids: seq<nat>, i: nat)
    requires i < |rows|
    ensures JobsOf(held + Jobs(rows, ids), i) == if i in ids then JobsOf(held, i) + {Job(i, rows[i].attempts)} else JobsOf(held, i)
  {}

  /** Each row a claim takes loses some of its work, and no other row gains any. */
  lemma ClaimedRowsFall(s: Box, s': Box, ids: seq<nat>, now: Time, reclaimBefore: Time, clock: Time, maxAttempts: nat, lost: nat, i: nat)
    requires CountsOk(s, maxAttempts) && maxAttempts > 0 && TakenOverAtMost(s'.rows, lost) && i < |s.rows|
    requires i in ids ==> Candidate(s.rows, i, now, reclaimBefore)
    requires s'.rows == ClaimRows(s.rows, ids, clock) && s'.held == s.held + Jobs(s'.rows, ids)
    ensures var most := maxAttempts + lost;
            if i in ids then Left(s'.held, i, s'.rows[i], most) < Left(s.held, i, s.rows[i], most)
            else Left(s'.held, i, s'.rows[i], most) == Left(s.held, i, s.rows[i], most)
  {
    hide FirstOpen, RowOk, Left, JobsOk, JobsOf, Jobs;
    JobsOfClaimed(s'.rows, s.held, ids, i);
    if i in ids {
      RowIsBounded(s.held, i, s.rows[i], maxAttempts);
      assert s'.rows[i].reclaims <= lost && s'.rows[i] == ClaimRow(s.rows[i], clock);
      ClaimedRowFalls(s.held, s'.held, i, s.rows[i], clock, maxAttempts + lost);
    } else {
      SameLeft(s.held, s'.held, i, s.rows[i], maxAttempts + lost);
    }
  }

  /** A claim that takes anything uses up work. */
  lemma ClaimFalls(s: Box, e: Event, maxAttempts: nat, lost: nat)
    requires CountsOk(s, maxAttempts) && e.Claim? && maxAttempts > 0
    requires TakenOverAtMost(Apply(s, e, maxAttempts).rows, lost)
    ensures var s' := Apply(s, e, maxAttempts); s' == s || Measure(s', maxAttempts + lost) < Measure(s, maxAttempts + lost)
  {
    hide Batch, Candidate, CountsOk, Left, Sum, TakenOverAtMost;
    var most := maxAttempts + lost;
    var s' := Apply(s, e, maxAttempts);
    var ids := Batch(s.rows, 0, e.now, e.reclaimBefore, BatchLimit(e.limit), e.locked);
    BatchHoldsCandidates(s.rows, 0, e.now, e.reclaimBefore, BatchLimit(e.limit), e.locked);
    if ids == [] {
      NothingClaimed(s, e, maxAttempts);
    } else {
      forall i | 0 <= i < |s.rows|
        ensures if i in ids then Left(s'.held, i, s'.rows[i], most) < Left(s.held, i, s.rows[i], most)
                else Left(s'.held, i, s'.rows[i], most) == Left(s.held, i, s.rows[i], most)
      {
        ClaimedRowsFall(s, s', ids, e.now, e.reclaimBefore, e.clock, maxAttempts, lost, i);
      }
      hide Apply, ClaimRows, Jobs;
      var xs, ys := AllLeft(s, most), AllLeft(s', most);
      assert ids[0] in ids && ys[ids[0]] < xs[ids[0]];
      SumFalls(xs, ys);
    }
  }

  lemma NothingClaimed(s: Box, e: Event, maxAttempts: nat)
    requires e.Claim? && Batch(s.rows, 0, e.now, e.reclaimBefore, BatchLimit(e.limit), e.locked) == []
    ensures Apply(s, e, maxAttempts) == s
  {
    hide Batch;
    var s' := Apply(s, e, maxAttempts);
    assert s'.rows == s.rows && s'.held == s.held && s'.claims == s.claims;
  }

  lemma SameLeft(held: set<Job>, held': set<Job>, i: nat, r: OutRow, most: nat)
    requires JobsOf(held', i) == JobsOf(held, i)
    ensures Left(held', i, r, most) == Left(held, i, r, most)
  {
    SameUnreported(held, held', i, r.attempts);
  }

  /** So does a report, by the worker that holds the current claim or by one it was taken from. */
  lemma FinishFalls(s: Box, e: Event, maxAttempts: nat, most: nat)
    requires CountsOk(s, maxAttempts) && e.Finish?
    ensures var s' := Apply(s, e, maxAttempts); s' == s || Measure(s', most) < Measure(s, most)
  {
    hide RowOk, Left, Sum, ProcessDelivery;
    var s' := Apply(s, e, maxAttempts);
    if Job(e.id, e.attempt) in s.held {
      ReportedRowFalls(s.held, e.id, e.attempt, s.rows[e.id], s'.rows[e.id], most);
      forall i | 0 <= i < |s.rows| ensures Left(s'.held, i, s'.rows[i], most) <= Left(s.held, i, s.rows[i], most) {
        if i != e.id {
          assert JobsOf(s'.held, i) == JobsOf(s.held, i);
          SameLeft(s.held, s'.held, i, s.rows[i], most);
        }
      }
      var xs, ys := AllLeft(s, most), AllLeft(s', most);
      assert ys[e.id] < xs[e.id];
      SumFalls(xs, ys);
    }
  }

  lemma DeleteFalls(s: Box, e: Event, maxAttempts: nat, most: nat)
    requires e.DeleteLanes?
    ensures Measure(Apply(s, e, maxAttempts), most) <= Measure(s, most)
  {
    hide Sum;
    SumFalls(AllLeft(s, most), AllLeft(Apply(s, e, maxAttempts), most));
  }

  lemma EnqueueAdds(s: Box, e: Event, maxAttempts: nat, most: nat)
    requires e.Enqueue? && JobsOk(s.rows, s.held)
    ensures Measure(Apply(s, e, maxAttempts), most) == Measure(s, most) + 2 * most
  {
    var s' := Apply(s, e, maxAttempts);
    var n := |s.rows|;
    assert Unreported(s.held, n, 0) == {};
    assert AllLeft(s', most) == AllLeft(s, most) + [2 * most];
    assert AllLeft(s', most)[..n] == AllLeft(s, most);
  }

  /** The claims that took something and the reports that arrived. */
  function Work(s: Box, es: seq<Event>, maxAttempts: nat): nat
  {
    if es == [] then 0
    else Work(s, es[..|es|-1], maxAttempts) + if Works(Run(s, es[..|es|-1], maxAttempts), es[|es|-1], maxAttempts) then 1 else 0
  }

  predicate Works(s: Box, e: Event, maxAttempts: nat)
  {
    (e.Claim? || e.Finish?) && Apply(s, e, maxAttempts) != s
  }

  lemma StepWorks(s: Box, e: Event, maxAttempts: nat, lost: nat)
    requires CountsOk(s, maxAttempts) && maxAttempts > 0 && TakenOverAtMost(Apply(s, e, maxAttempts).rows, lost)
    ensures var s', most := Apply(s, e, maxAttempts), maxAttempts + lost;
            && |s'.rows| == |s.rows| + (if e.Enqueue? then 1 else 0)
            && (if Works(s, e, maxAttempts) then 1 else 0) + Measure(s', most) <= Measure(s, most) + (if e.Enqueue? then 2 * most else 0)
  {
    hide Measure, CountsOk, TakenOverAtMost, Apply;
    RowsAfter(s, e, maxAttempts);
    match e
    case Enqueue(_, _, _) => JobsAreOk(s, maxAttempts); EnqueueAdds(s, e, maxAttempts, maxAttempts + lost);
    case Claim(_, _, _, _, _) => ClaimFalls(s, e, maxAttempts, lost);
    case Finish(_, _, _, _, _, _) => FinishFalls(s, e, maxAttempts, maxAttempts + lost);
    case DeleteLanes(_) => DeleteFalls(s, e, maxAttempts, maxAttempts + lost);
  }

  lemma RowsAfter(s: Box, e: Event, maxAttempts: nat)
    ensures |Apply(s, e, maxAttempts).rows| == |s.rows| + (if e.Enqueue? then 1 else 0)
  {
    hide Batch;
  }

  lemma JobsAreOk(s: Box, maxAttempts: nat)
    requires CountsOk(s, maxAttempts)
    ensures JobsOk(s.rows, s.held)
  {}

  lemma StepNeverTakesBack(s: Box, e: Event, maxAttempts: nat, lost: nat)
    requires TakenOverAtMost(Apply(s, e, maxAttempts).rows, lost)
    ensures TakenOverAtMost(s.rows, lost)
  {
    hide Batch;
    var rows' := Apply(s, e, maxAttempts).rows;
    forall i | 0 <= i < |s.rows| ensures s.rows[i].reclaims <= lost {
      assert rows'[i].reclaims >= s.rows[i].reclaims;
    }
  }

  /**
   * Retries come to an end, however late workers report: the steps that do anything, and those that
   * are left at the end, are no more than were left at the start and two for each attempt of a new row.
   */
  lemma {:induction false} WorkIsBounded(s: Box, es: seq<Event>, maxAttempts: nat, lost: nat)
    requires maxAttempts > 0 && CountsOk(s, maxAttempts) && TakenOverAtMost(Run(s, es, maxAttempts).rows, lost)
    ensures var end := Run(s, es, maxAttempts);
            && |end.rows| >= |s.rows|
            && Work(s, es, maxAttempts) + Measure(end, maxAttempts + lost)
               <= Measure(s, maxAttempts + lost) + 2 * (maxAttempts + lost) * (|end.rows| - |s.rows|)
  {
    hide CountsOk, Apply, Measure, TakenOverAtMost, Works;
    if es != [] {
      var n := |es| - 1;
      var t := Run(s, es[..n], maxAttempts);
      StepNeverTakesBack(t, es[n], maxAttempts, lost);
      WorkIsBounded(s, es[..n], maxAttempts, lost);
      CountsStayOk(s, es[..n], maxAttempts);
      StepWorks(t, es[n], maxAttempts, lost);
      AddSpans(2 * (maxAttempts + lost), |s.rows|, |t.rows|, |Apply(t, es[n], maxAttempts).rows|);
      assert Run(s, es, maxAttempts) == Apply(t, es[n], maxAttempts);
    }
  }

  lemma AddSpans(k: nat, a: nat, b: nat, c: nat)
    ensures k * (b - a) + k * (c - b) == k * (c - a)
    ensures c == b + 1 ==> k * (c - b) == k
    ensures c == b ==> k * (c - b) == 0
  {}

  /** From an empty outbox: two steps for each attempt of each row, and no more. */
  lemma AllWorkIsBounded(es: seq<Event>, maxAttempts: nat, lost: nat)
    requires maxAttempts > 0 && TakenOverAtMost(Run(EMPTY, es, maxAttempts).rows, lost)
    ensures Work(EMPTY, es, maxAttempts) <= 2 * (maxAttempts + lost) * |Run(EMPTY, es, maxAttempts).rows|
  {
    WorkIsBounded(EMPTY, es, maxAttempts, lost);
  }

  // ---------- something can always be claimed ----------

  predicate Settled(rows: seq<OutRow>)
  {
    forall i :: 0 <= i < |rows| ==> !rows[i].Open()
  }

  /** Late enough for every retry to be due and every silent worker to be given up. */
  ghost predicate Late(rows: seq<OutRow>, now: Time, reclaimBefore: Time)
  {
    forall i :: 0 <= i < |rows| ==> rows[i].nextAttemptAt <= now && rows[i].updatedAt <= reclaimBefore
  }

  lemma {:induction false} LateEnoughExists(rows: seq<OutRow>) returns (now: Time, reclaimBefore: Time)
    ensures Late(rows, now, reclaimBefore)
  {
    now, reclaimBefore := 0, 0;
    if rows != [] {
      var last := rows[|rows|-1];
      now, reclaimBefore := LateEnoughExists(rows[..|rows|-1]);
      now, reclaimBefore := Max(now, last.nextAttemptAt), Max(reclaimBefore, last.updatedAt);
      forall i | 0 <= i < |rows| ensures rows[i].nextAttemptAt <= now && rows[i].updatedAt <= reclaimBefore {
        assert i < |rows| - 1 ==> rows[..|rows|-1][i] == rows[i];
      }
    }
  }

  /** While a row is open, and whatever was asked for as a batch size, a late claim takes a row and so makes progress. */
  lemma OpenRowsCanBeClaimed(rows: seq<OutRow>, now: Time, reclaimBefore: Time, limit: int, i: nat)
    requires i < |rows| && rows[i].Open() && Late(rows, now, reclaimBefore)
    ensures Batch(rows, 0, now, reclaimBefore, BatchLimit(limit), {}) != []
  {
    var first := FirstOpenRow(rows, i);
    assert Candidate(rows, first, now, reclaimBefore);
    BatchIsComplete(rows, 0, now, reclaimBefore, BatchLimit(limit), {}, first);
  }

  lemma {:induction false} FirstOpenRow(rows: seq<OutRow>, i: nat) returns (first: nat)
    requires i < |rows| && rows[i].Open()
    ensures first <= i && rows[first].Open() && FirstOpen(rows, first)
  {
    if FirstOpen(rows, i) {
      first := i;
    } else {
      var h :| 0 <= h < i && rows[h].lane == rows[i].lane && rows[h].Open();
      first := FirstOpenRow(rows, h);
    }
  }

  /** So a run can only come to rest with every row delivered, dead, or deleted. */
  lemma OpenRowsMeanMoreWork(s: Box, maxAttempts: nat) returns (e: Event)
    requires !Settled(s.rows)
    ensures e.Claim? && Apply(s, e, maxAttempts) != s
  {
    var i :| 0 <= i < |s.rows| && s.rows[i].Open();
    var now, reclaimBefore := LateEnoughExists(s.rows);
    OpenRowsCanBeClaimed(s.rows, now, reclaimBefore, 20, i);
    e := Claim(now, reclaimBefore, 20, {}, 0);
    assert |Apply(s, e, maxAttempts).claims| > |s.claims|;
  }

  // ---------- every row reaches its end ----------

  /** When the measure is used up, every row is delivered, dead or deleted. */
  lemma UsedUpMeansSettled(s: Box, maxAttempts: nat, lost: nat)
    requires maxAttempts > 0 && CountsOk(s, maxAttempts) && TakenOverAtMost(s.rows, lost)
    ensures Measure(s, maxAttempts + lost) == 0 ==> Settled(s.rows)
  {
    hide Sum;
    var most := maxAttempts + lost;
    if i :| 0 <= i < |s.rows| && s.rows[i].Open() {
      var r := s.rows[i];
      RowIsBounded(s.held, i, r, maxAttempts);
      assert RowOk(s.held, i, r, maxAttempts);
      if r.status == Delivering {
        assert 1 <= r.attempts && r.attempts in Unreported(s.held, i, r.attempts);
      }
      assert AllLeft(s, most)[i] > 0;
      SumIsPositive(AllLeft(s, most), i);
    }
  }

  predicate NothingNew(es: seq<Event>)
  {
    forall i :: 0 <= i < |es| ==> !es[i].Enqueue?
  }

  lemma {:induction false} NothingNewStays(s: Box, es: seq<Event>, maxAttempts: nat)
    requires NothingNew(es)
    ensures |Run(s, es, maxAttempts).rows| == |s.rows|
  {
    hide Batch;
    if es != [] {
      NothingNewStays(s, es[..|es|-1], maxAttempts);
    }
  }

  /** A run that does as much work as there was to do has settled every row. */
  lemma EnoughWorkSettlesEverything(s: Box, es: seq<Event>, maxAttempts: nat, lost: nat)
    requires maxAttempts > 0 && CountsOk(s, maxAttempts) && NothingNew(es) && TakenOverAtMost(Run(s, es, maxAttempts).rows, lost)
    requires Work(s, es, maxAttempts) >= Measure(s, maxAttempts + lost)
    ensures Settled(Run(s, es, maxAttempts).rows)
  {
    hide CountsOk, Run, Work, Measure, NothingNew, TakenOverAtMost;
    WorkIsBounded(s, es, maxAttempts, lost);
    NothingNewStays(s, es, maxAttempts);
    CountsStayOk(s, es, maxAttempts);
    UsedUpMeansSettled(Run(s, es, maxAttempts), maxAttempts, lost);
  }

  /** While a row is open, every step claims something or reports on something. */
  ghost predicate Busy(s: Box, es: seq<Event>, maxAttempts: nat)
  {
    forall n :: 0 <= n < |es| ==> var t := Run(s, es[..n], maxAttempts); Settled(t.rows) || Works(t, es[n], maxAttempts)
  }

  /** Busy workers settle every row, stale reports or not: it is so at some moment of any run that is longer than the work there was. */
  lemma BusyWorkersSettleEverything(s: Box, es: seq<Event>, maxAttempts: nat, lost: nat) returns (n: nat)
    requires maxAttempts > 0 && CountsOk(s, maxAttempts) && NothingNew(es) && TakenOverAtMost(Run(s, es, maxAttempts).rows, lost)
    requires Busy(s, es, maxAttempts) && |es| >= Measure(s, maxAttempts + lost)
    ensures n <= |es| && Settled(Run(s, es[..n], maxAttempts).rows)
  {
    hide CountsOk, Run, Work, Measure, NothingNew, TakenOverAtMost, Settled, Works;
    if m :| 0 <= m < |es| && Settled(Run(s, es[..m], maxAttempts).rows) {
      n := m;
    } else {
      AlwaysWorking(s, es, maxAttempts, |es|);
      n := |es|;
      assert es[..n] == es;
      EnoughWorkSettlesEverything(s, es, maxAttempts, lost);
    }
  }

  lemma {:induction false} AlwaysWorking(s: Box, es: seq<Event>, maxAttempts: nat, n: nat)
    requires n <= |es| && forall m :: 0 <= m < n ==> Works(Run(s, es[..m], maxAttempts), es[m], maxAttempts)
    ensures Work(s, es[..n], maxAttempts) == n
  {
    hide Run, Works;
    if n > 0 {
      AlwaysWorking(s, es, maxAttempts, n - 1);
      assert es[..n][..n-1] == es[..n-1];
    }
  }

  /** An effective step that is always open while some row is: finish a claimed row, or claim. */
  lemma NextStep(s: Box, maxAttempts: nat, lost: nat) returns (e: Event)
    requires maxAttempts > 0 && CountsOk(s, maxAttempts) && TakenOverAtMost(s.rows, lost) && !Settled(s.rows)
    ensures Prompt(s, e) && !e.Enqueue? && TakenOverAtMost(Apply(s, e, maxAttempts).rows, lost)
    ensures Measure(Apply(s, e, maxAttempts), maxAttempts + lost) < Measure(s, maxAttempts + lost)
  {
    hide Measure, Batch, JobsOk, Left;
    if i :| 0 <= i < |s.rows| && s.rows[i].Open() && s.rows[i].status == Delivering {
      e := Finish(i, s.rows[i].attempts, true, Replied(200), 0, 0);
      assert RowOk(s.held, i, s.rows[i], maxAttempts);
      assert Apply(s, e, maxAttempts) != s;
      FinishFalls(s, e, maxAttempts, maxAttempts + lost);
    } else {
      e := OpenRowsMeanMoreWork(s, maxAttempts);
      hide RowOk;
      ClaimTakesNothingOver(s, e, maxAttempts, lost);
      ClaimFalls(s, e, maxAttempts, lost);
    }
  }

  /** With no row in a worker's hands nothing is taken over. */
  lemma ClaimTakesNothingOver(s: Box, e: Event, maxAttempts: nat, lost: nat)
    requires TakenOverAtMost(s.rows, lost) && e.Claim?
    requires forall i :: 0 <= i < |s.rows| ==> !(s.rows[i].Open() && s.rows[i].status == Delivering)
    ensures TakenOverAtMost(Apply(s, e, maxAttempts).rows, lost)
  {
    hide FirstOpen, Batch;
    var s' := Apply(s, e, maxAttempts);
    var ids := Batch(s.rows, 0, e.now, e.reclaimBefore, BatchLimit(e.limit), e.locked);
    BatchHoldsCandidates(s.rows, 0, e.now, e.reclaimBefore, BatchLimit(e.limit), e.locked);
    forall i | 0 <= i < |s.rows| ensures s'.rows[i].reclaims <= lost {
      if i in ids {
        assert Candidate(s.rows, i, e.now, e.reclaimBefore);
      }
    }
  }

  /** From every box that workers can reach, prompt steps without new rows settle every row, in at most as many steps as the measure. */
  lemma {:induction false} EveryRowSettles(s: Box, maxAttempts: nat, lost: nat) returns (es: seq<Event>)
    requires maxAttempts > 0 && CountsOk(s, maxAttempts) && TakenOverAtMost(s.rows, lost)
    ensures PromptRun(s, es, maxAttempts) && NothingNew(es) && |es| <= Measure(s, maxAttempts + lost)
    ensures Settled(Run(s, es, maxAttempts).rows)
    decreases Measure(s, maxAttempts + lost)
  {
    hide CountsOk, Apply, Measure, Prompt, TakenOverAtMost;
    if Settled(s.rows) {
      es := [];
    } else {
      var e := NextStep(s, maxAttempts, lost);
      StepKeepsCounts(s, e, maxAttempts);
      var rest := EveryRowSettles(Apply(s, e, maxAttempts), maxAttempts, lost);
      es := [e] + rest;
      StepFirst(s, e, rest, maxAttempts);
    }
  }

  lemma {:induction false} StepFirst(s: Box, e: Event, rest: seq<Event>, maxAttempts: nat)
    ensures Run(s, [e] + rest, maxAttempts) == Run(Apply(s, e, maxAttempts), rest, maxAttempts)
    ensures PromptRun(s, [e] + rest, maxAttempts) <==> Prompt(s, e) && PromptRun(Apply(s, e, maxAttempts), rest, maxAttempts)
  {
    hide Apply, Prompt;
    if rest == [] {
      assert [e] + rest == [e] && [e][..0] == [];
      assert Run(s, [], maxAttempts) == s;
      assert PromptRun(s, [], maxAttempts);
    } else {
      StepFirst(s, e, rest[..|rest|-1], maxAttempts);
      assert ([e] + rest)[..|[e] + rest|-1] == [e] + rest[..|rest|-1];
    }
  }
}
