/** The worker loop over the outbox table, updated in place. */
module WebhookWorker {
  import opened Prelude
  import opened Outbox
  import opened OutboxClaims
  import Backoff

  /** What the store returns for a claimed row: its id, its attempt number, and whether its endpoint is enabled. */
  datatype Claimed = Claimed(id: nat, attempt: nat, enabled: bool)

  /** Durations are in nanoseconds. */
  const NANOS_PER_SECOND := 1_000_000_000

  class OutboxStore {
    var rows: seq<OutRow>

    constructor (rows: seq<OutRow>)
      ensures this.rows == rows
    {
      this.rows := rows;
    }

    method ClaimPendingWebhookDeliveries(now: Time, reclaimBefore: Time, limit: int, disabled: set<nat>, clock: Time) returns (out: seq<Claimed>)
      modifies this
      ensures var ids := Batch(old(rows), 0, now, reclaimBefore, BatchLimit(limit), {});
              && rows == ClaimRows(old(rows), ids, clock)
              && |out| == |ids|
              && forall p :: 0 <= p < |ids| ==> ids[p] < |rows| && out[p] == Claimed(ids[p], rows[ids[p]].attempts, rows[ids[p]].lane.endpoint !in disabled)
      ensures |out| <= Wanted(limit) && forall p :: 0 <= p < |out| ==> Claimable(old(rows), out[p].id, now, reclaimBefore)
      ensures forall i :: Claimable(old(rows), i, now, reclaimBefore) ==> |out| == Wanted(limit) || exists p :: 0 <= p < |out| && out[p].id == i
    {
      BatchTakesExactly(rows, now, reclaimBefore, limit);
      hide Claimable, Wanted;
      var ids := SelectCandidates(now, reclaimBefore, BatchLimit(limit));
      BatchHoldsCandidates(rows, 0, now, reclaimBefore, BatchLimit(limit), {});
      hide Batch, Candidate, BatchLimit, ClaimRow;
      rows := ClaimRows(rows, ids, clock);
      out := Report(ids, disabled);
      forall i | i in ids ensures exists p :: 0 <= p < |out| && out[p].id == i {
        var p :| 0 <= p < |ids| && ids[p] == i;
        assert out[p].id == i;
      }
    }

    /** The claimed rows as the worker receives them. */
    method Report(ids: seq<nat>, disabled: set<nat>) returns (out: seq<Claimed>)
      requires forall p :: 0 <= p < |ids| ==> ids[p] < |rows|
      ensures |out| == |ids|
      ensures forall p :: 0 <= p < |ids| ==> out[p] == Claimed(ids[p], rows[ids[p]].attempts, rows[ids[p]].lane.endpoint !in disabled)
    {
      out := [];
      for p := 0 to |ids|
        invariant |out| == p
        invariant forall q :: 0 <= q < p ==> out[q] == Claimed(ids[q], rows[ids[q]].attempts, rows[ids[q]].lane.endpoint !in disabled)
      {
        out := out + [Claimed(ids[p], rows[ids[p]].attempts, rows[ids[p]].lane.endpoint !in disabled)];
      }
    }

    method SelectCandidates(now: Time, reclaimBefore: Time, limit: nat) returns (ids: seq<nat>)
      ensures ids == Batch(rows, 0, now, reclaimBefore, limit, {})
    {
      ids := [];
      var i := 0;
      while i < |rows| && |ids| < limit
        invariant i <= |rows| && |ids| <= limit
        invariant ids + Batch(rows, i, now, reclaimBefore, limit - |ids|, {}) == Batch(rows, 0, now, reclaimBefore, limit, {})
      {
        if Candidate(rows, i, now, reclaimBefore) {
          ids := ids + [i];
        }
        i := i + 1;
      }
    }

    /** The three mark statements: an update by id, which changes nothing when the row is gone. */
    method MarkWebhookOutbox(id: nat, m: Mark, clock: Time)
      modifies this
      ensures rows == Marked(old(rows), id, m, clock)
    {
      if id < |rows| && !rows[id].deleted {
        rows := rows[id := MarkRow(rows[id], m, clock)];
      }
    }
  }

  function Marked(rows: seq<OutRow>, id: nat, m: Mark, clock: Time): seq<OutRow>
  {
    if id < |rows| && !rows[id].deleted then rows[id := MarkRow(rows[id], m, clock)] else rows
  }

  /** How one delivery goes: the endpoint's reply and its time, the jitter drawn, and whether and when the update reaches the store. */
  datatype Outcome = Outcome(reply: Reply, at: Time, random: nat, marked: bool, markedAt: Time)

  /** How retries are spaced and limited. */
  datatype Policy = Policy(maxAttempts: nat, base: int, cap: int)
  {
    predicate Usable() { maxAttempts > 0 && 0 < base < Backoff.TWO_63 && 0 < cap < Backoff.TWO_63 }

    function RetryAt(attempt: nat, clock: Time, random: nat): Time
    {
      Backoff.RetryTime(base, cap, attempt, clock, random)
    }
  }

  class Worker {
    const store: OutboxStore
    const policy: Policy
    const batchSize: int
    const claimStaleAfter: Time

    /** Settings out of range fall back to the defaults. */
    constructor (store: OutboxStore, batchSize: int, claimStaleAfter: Time, maxAttempts: int, base: int, cap: int)
      requires base < Backoff.TWO_63 && cap < Backoff.TWO_63
      ensures this.store == store && policy.Usable()
      ensures 0 < this.batchSize <= 100 && this.claimStaleAfter > 0
      ensures 0 < batchSize <= 100 ==> this.batchSize == batchSize
      ensures !(0 < batchSize <= 100) ==> this.batchSize == 20
      ensures this.claimStaleAfter == if claimStaleAfter > 0 then claimStaleAfter else 45_000_000_000
      ensures policy.maxAttempts == if maxAttempts > 0 then maxAttempts else 8
      ensures policy.base == if base > 0 then base else 5_000_000_000
      ensures policy.cap == if cap > 0 then cap else 300_000_000_000
    {
      this.store := store;
      this.batchSize := if batchSize <= 0 || batchSize > 100 then 20 else batchSize;
      this.claimStaleAfter := if claimStaleAfter <= 0 then 45 * NANOS_PER_SECOND else claimStaleAfter;
      this.policy := Policy(if maxAttempts <= 0 then 8 else maxAttempts,
                            if base <= 0 then 5 * NANOS_PER_SECOND else base,
                            if cap <= 0 then 300 * NANOS_PER_SECOND else cap);
    }

    method DeliverOne(d: Claimed, o: Outcome)
      requires policy.Usable()
      modifies store
      ensures store.rows == Handled(old(store.rows), d, o, policy)
    {
      var retryAt := Backoff.NextRetryTime(policy.base, policy.cap, d.attempt, o.at, o.random);
      if o.marked {
        store.MarkWebhookOutbox(d.id, ProcessDelivery(d.enabled, o.reply, d.attempt, policy.maxAttempts, retryAt), o.markedAt);
      }
    }

    /** Works through one batch in order. */
    method ProcessBatch(claimed: seq<Claimed>, disabled: set<nat>, outcomes: map<nat, Outcome>, clock: Time, ghost start: seq<OutRow>)
      requires policy.Usable() && |store.rows| == |start|
      requires forall p, q :: 0 <= p < q < |claimed| ==> claimed[p].id != claimed[q].id
      requires forall p :: 0 <= p < |claimed| ==> JustClaimed(start, store.rows, claimed[p], disabled, clock)
      modifies store
      ensures |store.rows| == |start|
      ensures forall i :: 0 <= i < |start| && (forall p :: 0 <= p < |claimed| ==> claimed[p].id != i) ==> store.rows[i] == old(store.rows)[i]
      ensures forall p :: 0 <= p < |claimed| ==>
                && claimed[p].id < |start|
                && RoundEnds(start[claimed[p].id], store.rows[claimed[p].id], disabled, OutcomeFor(outcomes, claimed[p].id), policy)
    {
      hide RoundEnds, Handled, OutcomeFor;
      for p := 0 to |claimed|
        invariant |store.rows| == |start|
        invariant forall i :: 0 <= i < |start| && (forall q :: 0 <= q < p ==> claimed[q].id != i) ==> store.rows[i] == old(store.rows)[i]
        invariant forall q :: 0 <= q < p ==>
                    RoundEnds(start[claimed[q].id], store.rows[claimed[q].id], disabled, OutcomeFor(outcomes, claimed[q].id), policy)
      {
        var d := claimed[p];
        assert JustClaimed(start, old(store.rows), d, disabled, clock);
        OneHandled(start[d.id], store.rows, d, disabled, OutcomeFor(outcomes, d.id), policy, clock);
        DeliverOne(d, OutcomeFor(outcomes, d.id));
      }
    }

    /**
     * One round on an otherwise quiet table.  Rows outside the batch are untouched; a claimed row
     * ends delivered, dead, or pending again, and stays claimed only if its update was lost.
     */
    method RunOnce(now: Time, disabled: set<nat>, outcomes: map<nat, Outcome>, clock: Time) returns (count: nat)
      requires policy.Usable()
      modifies store
      ensures |store.rows| == |old(store.rows)|
      ensures count == |Batch(old(store.rows), 0, now, now - claimStaleAfter, BatchLimit(batchSize), {})|
      ensures forall i :: 0 <= i < |store.rows| ==>
                RowEnds(old(store.rows)[i], store.rows[i], i, i in Batch(old(store.rows), 0, now, now - claimStaleAfter, BatchLimit(batchSize), {}), disabled, outcomes, policy)
      ensures count <= Wanted(batchSize)
      ensures forall i :: 0 <= i < |store.rows| ==>
                if Claimable(old(store.rows), i, now, now - claimStaleAfter)
                then count == Wanted(batchSize) || RowEnds(old(store.rows)[i], store.rows[i], i, true, disabled, outcomes, policy)
                else RowEnds(old(store.rows)[i], store.rows[i], i, false, disabled, outcomes, policy)
    {
      hide Batch, BatchLimit, RoundEnds, ClaimRow, ClaimRows, OutcomeFor, Claimable, Wanted;
      ghost var start := store.rows;
      ghost var ids := Batch(start, 0, now, now - claimStaleAfter, BatchLimit(batchSize), {});
      BatchIsClaimable(start, now, now - claimStaleAfter, BatchLimit(batchSize));
      var claimed := store.ClaimPendingWebhookDeliveries(now, now - claimStaleAfter, batchSize, disabled, clock);
      ClaimedRows(start, ids, clock);
      assert forall p :: 0 <= p < |claimed| ==> claimed[p].id == ids[p];
      ProcessBatch(claimed, disabled, outcomes, clock, start);
      count := |claimed|;
      assert forall i :: 0 <= i < |start| && i !in ids ==> forall p :: 0 <= p < |claimed| ==> claimed[p].id != i;
      ClaimableRowsEnd(start, store.rows, ids, now, now - claimStaleAfter, batchSize, disabled, outcomes, policy);
    }
  }

  /** What a round did, row by row. */
  ghost predicate RowEnds(before: OutRow, after: OutRow, i: nat, claimed: bool, disabled: set<nat>, outcomes: map<nat, Outcome>, policy: Policy)
  {
    if claimed then RoundEnds(before, after, disabled, OutcomeFor(outcomes, i), policy) else after == before
  }

  lemma ClaimableRowsEnd(before: seq<OutRow>, after: seq<OutRow>, ids: seq<nat>, now: Time, reclaimBefore: Time, limit: int,
                         disabled: set<nat>, outcomes: map<nat, Outcome>, policy: Policy)
    requires ids == Batch(before, 0, now, reclaimBefore, BatchLimit(limit), {}) && |after| == |before|
    requires forall i :: 0 <= i < |before| ==> RowEnds(before[i], after[i], i, i in ids, disabled, outcomes, policy)
    ensures |ids| <= Wanted(limit)
    ensures forall i :: 0 <= i < |before| ==>
              if Claimable(before, i, now, reclaimBefore)
              then |ids| == Wanted(limit) || RowEnds(before[i], after[i], i, true, disabled, outcomes, policy)
              else RowEnds(before[i], after[i], i, false, disabled, outcomes, policy)
  {
    hide Batch, BatchLimit, RowEnds, Claimable, Wanted;
    BatchTakesExactly(before, now, reclaimBefore, limit);
  }

  function OutcomeFor(outcomes: map<nat, Outcome>, id: nat): Outcome
  {
    if id in outcomes then outcomes[id] else Outcome(NoReply, 0, 0, false, 0)
  }

  /** The row as the claim left it, and what the worker was told about it. */
  ghost predicate JustClaimed(start: seq<OutRow>, rows: seq<OutRow>, d: Claimed, disabled: set<nat>, clock: Time)
  {
    && d.id < |start| && d.id < |rows| && !start[d.id].deleted && rows[d.id] == ClaimRow(start[d.id], clock)
    && d.attempt == start[d.id].attempts + 1 && d.enabled == (start[d.id].lane.endpoint !in disabled)
  }

  lemma BatchIsClaimable(rows: seq<OutRow>, now: Time, reclaimBefore: Time, limit: nat)
    ensures var ids := Batch(rows, 0, now, reclaimBefore, limit, {});
            && (forall i, j :: 0 <= i < j < |ids| ==> ids[i] < ids[j])
            && (forall p :: 0 <= p < |ids| ==> ids[p] < |rows| && !rows[ids[p]].deleted)
  {
    BatchHoldsCandidates(rows, 0, now, reclaimBefore, limit, {});
    var ids := Batch(rows, 0, now, reclaimBefore, limit, {});
    forall p | 0 <= p < |ids| ensures ids[p] < |rows| && !rows[ids[p]].deleted {
      assert Candidate(rows, ids[p], now, reclaimBefore);
    }
  }

  lemma ClaimedRows(rows: seq<OutRow>, ids: seq<nat>, clock: Time)
    requires forall p :: 0 <= p < |ids| ==> ids[p] < |rows|
    ensures var rows' := ClaimRows(rows, ids, clock);
            && |rows'| == |rows|
            && (forall i :: 0 <= i < |rows| && i !in ids ==> rows'[i] == rows[i])
            && (forall p :: 0 <= p < |ids| ==> rows'[ids[p]] == ClaimRow(rows[ids[p]], clock))
            && (forall p :: 0 <= p < |ids| ==> rows'[ids[p]].attempts == rows[ids[p]].attempts + 1 && rows'[ids[p]].lane == rows[ids[p]].lane)
  {
    forall p | 0 <= p < |ids| ensures ClaimRows(rows, ids, clock)[ids[p]] == ClaimRow(rows[ids[p]], clock) {
      assert ids[p] in ids;
    }
  }

  lemma OneHandled(before: OutRow, rows: seq<OutRow>, d: Claimed, disabled: set<nat>, o: Outcome, policy: Policy, clock: Time)
    requires d.id < |rows| && rows[d.id] == ClaimRow(before, clock) && !before.deleted
    requires d.attempt == before.attempts + 1 && d.enabled == (before.lane.endpoint !in disabled)
    ensures var rows' := Handled(rows, d, o, policy);
            && |rows'| == |rows| && (forall i :: 0 <= i < |rows| && i != d.id ==> rows'[i] == rows[i])
            && RoundEnds(before, rows'[d.id], disabled, o, policy)
  {}

  function Handled(rows: seq<OutRow>, d: Claimed, o: Outcome, policy: Policy): seq<OutRow>
  {
    if o.marked then Marked(rows, d.id, ProcessDelivery(d.enabled, o.reply, d.attempt, policy.maxAttempts, policy.RetryAt(d.attempt, o.at, o.random)), o.markedAt) else rows
  }

  /** How a claimed row looks when its round is over. */
  predicate RoundEnds(before: OutRow, after: OutRow, disabled: set<nat>, o: Outcome, policy: Policy)
  {
    var code := if o.reply.Replied? then o.reply.code else 0;
    var enabled := before.lane.endpoint !in disabled;
    var refused := 400 <= code < 500 && code != 429 && code != 408;
    && after.lane == before.lane && after.attempts == before.attempts + 1
    && (after.status == Delivering <==> !o.marked)
    && (after.status == Delivered <==> o.marked && enabled && 200 <= code < 300)
    && (after.status == Dead <==> o.marked && (!enabled || refused || (!(200 <= code < 300) && before.attempts + 1 >= policy.maxAttempts)))
    && (o.marked ==> after.updatedAt == o.markedAt)
    && (after.status == Pending ==> after.attempts < policy.maxAttempts && after.nextAttemptAt == policy.RetryAt(after.attempts, o.at, o.random))
  }
}
