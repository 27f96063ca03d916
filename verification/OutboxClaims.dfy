/** What a claim takes and leaves, in the table's own columns, and how long a row is left alone. */
module OutboxClaims {
  import opened Prelude
  import opened Outbox

  /** The row is there, its retry is due or its worker has been silent for too long, and every row before it in its lane is finished or gone. */
  ghost predicate Claimable(rows: seq<OutRow>, i: int, now: Time, reclaimBefore: Time)
  {
    && 0 <= i < |rows| && !rows[i].deleted
    && ((rows[i].status == Pending && rows[i].nextAttemptAt <= now) || (rows[i].status == Delivering && rows[i].updatedAt <= reclaimBefore))
    && forall h :: 0 <= h < i && rows[h].lane == rows[i].lane ==> rows[h].deleted || rows[h].status == Delivered || rows[h].status == Dead
  }

  lemma CandidatesAreClaimable(rows: seq<OutRow>, i: nat, now: Time, reclaimBefore: Time)
    requires i < |rows|
    ensures Candidate(rows, i, now, reclaimBefore) <==> Claimable(rows, i, now, reclaimBefore)
  {}

  /** Between 1 and 100 rows are asked for; any other number means 20. */
  function Wanted(limit: int): nat
  {
    if 1 <= limit <= 100 then limit else 20
  }

  /** The rows a claim took, as its log shows. */
  function Taken(s: Box, s': Box): seq<nat>
    requires |s.claims| <= |s'.claims|
  {
    s'.claims[|s.claims|..]
  }

  /** A claim takes claimable rows that nobody else has locked, lowest ids first, and leaves one out only when it has as many as it wants. */
  lemma ClaimTakesExactly(s: Box, e: Event, maxAttempts: nat, i: nat)
    requires e.Claim? && i < |s.rows|
    ensures var s' := Apply(s, e, maxAttempts);
            && |s'.rows| == |s.rows| && s.claims <= s'.claims && s'.deliveries == s.deliveries
            && var got := Taken(s, s');
            && |got| <= Wanted(e.limit) && (forall p, q :: 0 <= p < q < |got| ==> got[p] < got[q])
            && (i in got ==>
                  && i !in e.locked && Claimable(s.rows, i, e.now, e.reclaimBefore)
                  && s'.rows[i] == s.rows[i].(status := Delivering, attempts := s.rows[i].attempts + 1, updatedAt := e.clock, reclaims := s'.rows[i].reclaims)
                  && s'.rows[i].reclaims == s.rows[i].reclaims + (if s.rows[i].status == Delivering then 1 else 0)
                  && Job(i, s'.rows[i].attempts) in s'.held)
            && (i !in got ==> s'.rows[i] == s.rows[i])
            && (i !in got && i !in e.locked && Claimable(s.rows, i, e.now, e.reclaimBefore) ==> |got| == Wanted(e.limit))
  {
    hide Batch, Candidate, Claimable;
    var ids := Batch(s.rows, 0, e.now, e.reclaimBefore, BatchLimit(e.limit), e.locked);
    BatchHoldsCandidates(s.rows, 0, e.now, e.reclaimBefore, BatchLimit(e.limit), e.locked);
    CandidatesAreClaimable(s.rows, i, e.now, e.reclaimBefore);
    if i !in e.locked && Candidate(s.rows, i, e.now, e.reclaimBefore) {
      BatchIsComplete(s.rows, 0, e.now, e.reclaimBefore, BatchLimit(e.limit), e.locked, i);
    }
    assert Taken(s, Apply(s, e, maxAttempts)) == ids;
    if i in ids {
      assert Candidate(s.rows, i, e.now, e.reclaimBefore);
      OpenUnlessFinished(s.rows, i, e.now, e.reclaimBefore);
    }
  }

  lemma OpenUnlessFinished(rows: seq<OutRow>, i: nat, now: Time, reclaimBefore: Time)
    requires i < |rows| && Candidate(rows, i, now, reclaimBefore)
    ensures rows[i].status == Pending || rows[i].status == Delivering
  {}

  /** The same of a claim on its own, when nothing is locked. */
  lemma BatchTakesExactly(rows: seq<OutRow>, now: Time, reclaimBefore: Time, limit: int)
    ensures var ids := Batch(rows, 0, now, reclaimBefore, BatchLimit(limit), {});
            && |ids| <= Wanted(limit) && (forall p :: 0 <= p < |ids| ==> Claimable(rows, ids[p], now, reclaimBefore))
            && forall i :: Claimable(rows, i, now, reclaimBefore) ==> i in ids || |ids| == Wanted(limit)
  {
    hide Batch, Candidate, Claimable;
    var ids := Batch(rows, 0, now, reclaimBefore, BatchLimit(limit), {});
    BatchHoldsCandidates(rows, 0, now, reclaimBefore, BatchLimit(limit), {});
    forall p | 0 <= p < |ids| ensures Claimable(rows, ids[p], now, reclaimBefore) {
      CandidatesAreClaimable(rows, ids[p], now, reclaimBefore);
    }
    forall i | Claimable(rows, i, now, reclaimBefore) ensures i in ids || |ids| == Wanted(limit) {
      ClaimableIsThere(rows, i, now, reclaimBefore);
      CandidatesAreClaimable(rows, i, now, reclaimBefore);
      BatchIsComplete(rows, 0, now, reclaimBefore, BatchLimit(limit), {}, i);
    }
  }

  lemma ClaimableIsThere(rows: seq<OutRow>, i: int, now: Time, reclaimBefore: Time)
    requires Claimable(rows, i, now, reclaimBefore)
    ensures 0 <= i < |rows|
  {}

  /** A new row waits for its time, behind all others; deleting lanes deletes all their rows and no others. */
  lemma RowsComeAndGo(s: Box, e: Event, maxAttempts: nat)
    ensures e.Enqueue? ==> Apply(s, e, maxAttempts) == s.(rows := s.rows + [OutRow(e.lane, Pending, 0, e.at, e.clock, false, 0)])
    ensures e.DeleteLanes? ==>
              var s' := Apply(s, e, maxAttempts);
              && s' == s.(rows := s'.rows) && |s'.rows| == |s.rows|
              && forall i :: 0 <= i < |s.rows| ==> s'.rows[i] == s.rows[i].(deleted := s.rows[i].deleted || s.rows[i].lane in e.gone)
  {}

  // ---------- what a report does ----------

  /** The endpoint took it; or it is switched off, refuses for good, or has had all its attempts; or it is tried again at the time given. */
  lemma ReportsDecide(s: Box, e: Event, maxAttempts: nat)
    requires Marks(s, e)
    ensures var row, row' := s.rows[e.id], Apply(s, e, maxAttempts).rows[e.id];
            var code := if e.reply.Replied? then e.reply.code else 0;
            var taken := e.enabled && 200 <= code < 300;
            var hopeless := !e.enabled || (400 <= code < 500 && code != 408 && code != 429) || e.attempt >= maxAttempts;
            && (row'.status == Delivered <==> taken) && (row'.status == Dead <==> !taken && hopeless) && (row'.status == Pending <==> !taken && !hopeless)
            && row'.updatedAt == e.clock && (row'.status == Pending ==> row'.nextAttemptAt == e.retryAt)
            && row'.attempts == row.attempts && row'.lane == row.lane && row'.reclaims == row.reclaims
            && Apply(s, e, maxAttempts).deliveries == s.deliveries + (if taken then [e.id] else [])
  {}

  // ---------- how long a row is left alone ----------

  /** The event claims the row. */
  ghost predicate Takes(s: Box, e: Event, id: nat, maxAttempts: nat)
  {
    e.Claim? && id < |s.rows| && |s.claims| <= |Apply(s, e, maxAttempts).claims| && id in Taken(s, Apply(s, e, maxAttempts))
  }

  /** The event does nothing to the row, unless it is deleted with its lane. */
  ghost predicate LeavesAlone(s: Box, e: Event, id: nat, maxAttempts: nat)
  {
    !Takes(s, e, id, maxAttempts) && !(Marks(s, e) && e.id == id)
  }

  lemma RowStands(s: Box, e: Event, id: nat, maxAttempts: nat)
    requires id < |s.rows| && LeavesAlone(s, e, id, maxAttempts)
    ensures var s' := Apply(s, e, maxAttempts);
            id < |s'.rows| && s'.rows[id] == s.rows[id].(deleted := s'.rows[id].deleted)
  {
    if e.Claim? {
      ClaimTakesExactly(s, e, maxAttempts, id);
    }
    hide Batch, ProcessDelivery, ClaimRows, Jobs;
  }

  /** From moment i to moment j nothing claims the row or reports on it. */
  ghost predicate Undisturbed(s: Box, es: seq<Event>, i: nat, j: nat, id: nat, maxAttempts: nat)
    requires j <= |es|
  {
    forall k :: i <= k < j ==> LeavesAlone(Run(s, es[..k], maxAttempts), es[k], id, maxAttempts)
  }

  lemma {:induction false} RowWaits(s: Box, es: seq<Event>, i: nat, j: nat, id: nat, maxAttempts: nat)
    requires i <= j <= |es| && id < |Run(s, es[..i], maxAttempts).rows| && Undisturbed(s, es, i, j, id, maxAttempts)
    ensures var before, after := Run(s, es[..i], maxAttempts).rows, Run(s, es[..j], maxAttempts).rows;
            id < |after| && after[id] == before[id].(deleted := after[id].deleted)
    decreases j
  {
    hide Apply, LeavesAlone;
    if i < j {
      RowWaits(s, es, i, j - 1, id, maxAttempts);
      assert es[..j][..j-1] == es[..j-1];
      RowStands(Run(s, es[..j-1], maxAttempts), es[j-1], id, maxAttempts);
    }
  }

  lemma NextMoment(s: Box, es: seq<Event>, i: nat, maxAttempts: nat)
    requires i < |es|
    ensures Run(s, es[..i+1], maxAttempts) == Apply(Run(s, es[..i], maxAttempts), es[i], maxAttempts)
  {
    assert es[..i+1][..i] == es[..i];
  }

  /** A retry is not tried before it is due: the next claim of the row has a clock at or after the time the report set. */
  lemma RetriesWaitUntilDue(s: Box, es: seq<Event>, i: nat, j: nat, id: nat, maxAttempts: nat)
    requires i < j < |es| && es[i].Finish? && es[i].id == id && Marks(Run(s, es[..i], maxAttempts), es[i])
    requires id < |Run(s, es[..i+1], maxAttempts).rows| && Run(s, es[..i+1], maxAttempts).rows[id].status == Pending
    requires Undisturbed(s, es, i + 1, j, id, maxAttempts) && Takes(Run(s, es[..j], maxAttempts), es[j], id, maxAttempts)
    ensures es[j].now >= es[i].retryAt
  {
    NextMoment(s, es, i, maxAttempts);
    hide Run, Undisturbed, LeavesAlone;
    RowWaits(s, es, i + 1, j, id, maxAttempts);
    ReportSetsTheTime(Run(s, es[..i], maxAttempts), es[i], maxAttempts);
    hide Apply;
    ClaimTakesExactly(Run(s, es[..j], maxAttempts), es[j], maxAttempts, id);
  }

  lemma ReportSetsTheTime(s: Box, e: Event, maxAttempts: nat)
    requires Marks(s, e) && Apply(s, e, maxAttempts).rows[e.id].status == Pending
    ensures Apply(s, e, maxAttempts).rows[e.id].nextAttemptAt == e.retryAt
  {}

  /** A worker is left its time: its claim is taken over only by one that gives up on claims as old as that. */
  lemma ClaimsAreNotTakenOverEarly(s: Box, es: seq<Event>, i: nat, j: nat, id: nat, maxAttempts: nat)
    requires i < j < |es| && Takes(Run(s, es[..i], maxAttempts), es[i], id, maxAttempts)
    requires Undisturbed(s, es, i + 1, j, id, maxAttempts) && Takes(Run(s, es[..j], maxAttempts), es[j], id, maxAttempts)
    ensures es[j].reclaimBefore >= es[i].clock
  {
    NextMoment(s, es, i, maxAttempts);
    ClaimTakesExactly(Run(s, es[..i], maxAttempts), es[i], maxAttempts, id);
    hide Run, Apply, Undisturbed, LeavesAlone;
    RowWaits(s, es, i + 1, j, id, maxAttempts);
    ClaimTakesExactly(Run(s, es[..j], maxAttempts), es[j], maxAttempts, id);
  }
}
