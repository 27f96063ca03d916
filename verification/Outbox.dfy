/**
 * The webhook outbox: rows are claimed in batches, delivered or retried by workers, and reclaimed
 * from workers that vanished.  Within one lane (room, agent, endpoint) order is kept.
 */
module Outbox {
  import opened Prelude

  datatype Lane = Lane(room: nat, agent: nat, endpoint: nat)

  datatype Status = Pending | Delivering | Delivered | Dead

  /** A row's id is its position.  `reclaims` is history: claims taken over from a worker that went silent. */
  datatype OutRow = OutRow(lane: Lane, status: Status, attempts: nat, nextAttemptAt: Time, updatedAt: Time,
                           deleted: bool, reclaims: nat)
  {
    predicate Terminal() { status == Delivered || status == Dead }
    predicate Touched() { attempts > 0 || status != Pending }
    predicate Open() { !deleted && !Terminal() }
  }

  /** A claim as a worker holds it: the row and the number of the attempt. */
  datatype Job = Job(id: nat, attempt: nat)

  /**
   * `held` are the jobs that workers were given and have not reported on; a worker that vanished holds
   * its job for ever.  `claims` and `deliveries` are history: every claim and every successful delivery, in order.
   */
  datatype Box = Box(rows: seq<OutRow>, held: set<Job>, claims: seq<nat>, deliveries: seq<nat>)

  // ---------- claiming ----------

  function BatchLimit(limit: int): nat
  {
    if limit <= 0 || limit > 100 then 20 else limit
  }

  predicate Due(r: OutRow, now: Time, reclaimBefore: Time)
  {
    !r.deleted && ((r.status == Pending && r.nextAttemptAt <= now) || (r.status == Delivering && r.updatedAt <= reclaimBefore))
  }

  predicate FirstOpen(rows: seq<OutRow>, i: nat)
    requires i < |rows|
  {
    forall h :: 0 <= h < i && rows[h].lane == rows[i].lane ==> !rows[h].Open()
  }

  predicate Candidate(rows: seq<OutRow>, i: nat, now: Time, reclaimBefore: Time)
    requires i < |rows|
  {
    Due(rows[i], now, reclaimBefore) && FirstOpen(rows, i)
  }

  /** The first `limit` candidates from position `from` on that no other claim has locked. */
  function Batch(rows: seq<OutRow>, from: nat, now: Time, reclaimBefore: Time, limit: nat, locked: set<nat>): (ids: seq<nat>)
    decreases |rows| - from
  {
    if limit == 0 || from >= |rows| then []
    else if from !in locked && Candidate(rows, from, now, reclaimBefore)
    then [from] + Batch(rows, from + 1, now, reclaimBefore, limit - 1, locked)
    else Batch(rows, from + 1, now, reclaimBefore, limit, locked)
  }

  function ClaimRow(r: OutRow, clock: Time): OutRow
  {
    r.(status := Delivering, attempts := r.attempts + 1, updatedAt := clock,
       reclaims := if r.status == Delivering then r.reclaims + 1 else r.reclaims)
  }

  function ClaimRows(rows: seq<OutRow>, ids: seq<nat>, clock: Time): (rows': seq<OutRow>)
  {
    seq(|rows|, i requires 0 <= i < |rows| => if i in ids then ClaimRow(rows[i], clock) else rows[i])
  }

  /** The jobs handed out by a claim of these rows. */
  function Jobs(rows: seq<OutRow>, ids: seq<nat>): set<Job>
  {
    set i | i in ids && i < |rows| :: Job(i, rows[i].attempts)
  }

  // ---------- what a worker does with a claimed row ----------

  datatype Reply = NoReply | Replied(code: int)

  datatype Mark = MarkDelivered | MarkRetry(at: Time) | MarkDead

  function FailDelivery(reply: Reply, attempt: nat, maxAttempts: nat, retryAt: Time): Mark
  {
    var code := if reply.Replied? then reply.code else 0;
    if 400 <= code < 500 && code != 429 && code != 408 then MarkDead
    else if attempt >= maxAttempts then MarkDead
    else MarkRetry(retryAt)
  }

  function ProcessDelivery(enabled: bool, reply: Reply, attempt: nat, maxAttempts: nat, retryAt: Time): Mark
  {
    if !enabled then MarkDead
    else if reply.Replied? && 200 <= reply.code < 300 then MarkDelivered
    else FailDelivery(reply, attempt, maxAttempts, retryAt)
  }

  /** The update is by id alone; the store does not ask who holds the row. */
  function MarkRow(r: OutRow, m: Mark, clock: Time): OutRow
  {
    match m
    case MarkDelivered => r.(status := Delivered, updatedAt := clock)
    case MarkRetry(at) => r.(status := Pending, nextAttemptAt := at, updatedAt := clock)
    case MarkDead => r.(status := Dead, updatedAt := clock)
  }

  // ---------- steps ----------

  datatype Event =
    | Enqueue(lane: Lane, at: Time, clock: Time)
    | Claim(now: Time, reclaimBefore: Time, limit: int, locked: set<nat>, clock: Time)
    | Finish(id: nat, attempt: nat, enabled: bool, reply: Reply, retryAt: Time, clock: Time)
    | DeleteLanes(gone: set<Lane>)

  function DeleteRows(rows: seq<OutRow>, gone: set<Lane>): seq<OutRow>
  {
    seq(|rows|, i requires 0 <= i < |rows| => if rows[i].lane in gone then rows[i].(deleted := true) else rows[i])
  }

  /**
   * A worker reports on a job it holds, once, however late.  One whose update fails, or that dies
   * first, takes no Finish step at all: it abandons its claim.
   */
  function Apply(s: Box, e: Event, maxAttempts: nat): Box
  {
    match e
    case Enqueue(lane, at, clock) => s.(rows := s.rows + [OutRow(lane, Pending, 0, at, clock, false, 0)])
    case Claim(now, reclaimBefore, limit, locked, clock) =>
      var ids := Batch(s.rows, 0, now, reclaimBefore, BatchLimit(limit), locked);
      var rows := ClaimRows(s.rows, ids, clock);
      s.(rows := rows, held := s.held + Jobs(rows, ids), claims := s.claims + ids)
    case Finish(id, attempt, enabled, reply, retryAt, clock) =>
      if Job(id, attempt) !in s.held then s
      else if id >= |s.rows| || s.rows[id].deleted then s.(held := s.held - {Job(id, attempt)})
      else
        var m := ProcessDelivery(enabled, reply, attempt, maxAttempts, retryAt);
        s.(rows := s.rows[id := MarkRow(s.rows[id], m, clock)],
           held := s.held - {Job(id, attempt)},
           deliveries := if m.MarkDelivered? then s.deliveries + [id] else s.deliveries)
    case DeleteLanes(gone) => s.(rows := DeleteRows(s.rows, gone))
  }

  function Run(s: Box, es: seq<Event>, maxAttempts: nat): Box
  {
    if es == [] then s else Apply(Run(s, es[..|es|-1], maxAttempts), es[|es|-1], maxAttempts)
  }

  /** Only the worker that holds the current claim finishes a row. */
  predicate Prompt(s: Box, e: Event)
  {
    Marks(s, e) ==> Holds(s.rows[e.id], e.attempt)
  }

  /** The event is a report that reaches a row. */
  predicate Marks(s: Box, e: Event)
    ensures Marks(s, e) ==> e.Finish? && e.id < |s.rows|
  {
    e.Finish? && Job(e.id, e.attempt) in s.held && e.id < |s.rows| && !s.rows[e.id].deleted
  }

  predicate Holds(r: OutRow, attempt: nat)
  {
    r.status == Delivering && r.attempts == attempt
  }

  ghost predicate PromptRun(s: Box, es: seq<Event>, maxAttempts: nat)
  {
    es == [] || (PromptRun(s, es[..|es|-1], maxAttempts) && Prompt(Run(s, es[..|es|-1], maxAttempts), es[|es|-1]))
  }

  const EMPTY := Box([], {}, [], [])

  // ---------- batches ----------

  lemma {:induction false} BatchHoldsCandidates(rows: seq<OutRow>, from: nat, now: Time, reclaimBefore: Time, limit: nat, locked: set<nat>)
    ensures var ids := Batch(rows, from, now, reclaimBefore, limit, locked);
            && |ids| <= limit
            && (forall i, j :: 0 <= i < j < |ids| ==> ids[i] < ids[j])
            && (forall i :: 0 <= i < |ids| ==> from <= ids[i] < |rows| && ids[i] !in locked && Candidate(rows, ids[i], now, reclaimBefore))
    decreases |rows| - from
  {
    hide Candidate;
    if limit > 0 && from < |rows| {
      var taken := from !in locked && Candidate(rows, from, now, reclaimBefore);
      BatchHoldsCandidates(rows, from + 1, now, reclaimBefore, if taken then limit - 1 else limit, locked);
    }
  }

  /** A claim never takes two rows of one lane. */
  lemma OneRowPerLane(rows: seq<OutRow>, now: Time, reclaimBefore: Time, limit: nat, locked: set<nat>, p: nat, q: nat)
    requires p < q < |Batch(rows, 0, now, reclaimBefore, limit, locked)|
    ensures var ids := Batch(rows, 0, now, reclaimBefore, limit, locked);
            ids[p] < ids[q] < |rows| && rows[ids[p]].lane != rows[ids[q]].lane
  {
    BatchHoldsCandidates(rows, 0, now, reclaimBefore, limit, locked);
    var ids := Batch(rows, 0, now, reclaimBefore, limit, locked);
    assert Candidate(rows, ids[p], now, reclaimBefore) && Candidate(rows, ids[q], now, reclaimBefore);
  }

  /** A candidate nobody has locked is left out only by a full batch. */
  lemma {:induction false} BatchIsComplete(rows: seq<OutRow>, from: nat, now: Time, reclaimBefore: Time, limit: nat, locked: set<nat>, j: nat)
    requires from <= j < |rows| && j !in locked && Candidate(rows, j, now, reclaimBefore)
    ensures var ids := Batch(rows, from, now, reclaimBefore, limit, locked); j in ids || |ids| == limit
    decreases |rows| - from
  {
    hide Candidate;
    if limit > 0 && from < j {
      var taken := from !in locked && Candidate(rows, from, now, reclaimBefore);
      BatchIsComplete(rows, from + 1, now, reclaimBefore, if taken then limit - 1 else limit, locked, j);
    }
  }

  // ---------- order within a lane ----------

  /** In one lane, whatever was claimed or finished has only finished rows before it. */
  ghost predicate LaneFifo(rows: seq<OutRow>)
  {
    forall i, j :: 0 <= i < j < |rows| && SameLane(rows, i, j) && !rows[j].deleted && rows[j].Touched() ==> !rows[i].Open()
  }

  predicate SameLane(rows: seq<OutRow>, i: nat, j: nat)
    requires i < |rows| && j < |rows|
  {
    rows[i].lane == rows[j].lane
  }

  /** Lanes are deleted whole. */
  ghost predicate WholeLanes(rows: seq<OutRow>)
  {
    forall i, j :: 0 <= i < j < |rows| && SameLane(rows, i, j) && rows[j].deleted ==> rows[i].deleted
  }

  /** Within a lane, the logged rows never go back; strictly: they never repeat either. */
  ghost predicate LaneOrdered(rows: seq<OutRow>, log: seq<nat>, strictly: bool)
  {
    && (forall p :: 0 <= p < |log| ==> log[p] < |rows|)
    && forall p, q :: 0 <= p < q < |log| && SameLane(rows, log[p], log[q]) ==> log[p] <= log[q] && (strictly ==> log[p] < log[q])
  }

  ghost predicate Inv(s: Box)
  {
    && LaneFifo(s.rows) && WholeLanes(s.rows)
    && LaneOrdered(s.rows, s.claims, false) && LaneOrdered(s.rows, s.deliveries, true)
    && (forall p :: 0 <= p < |s.claims| ==> s.rows[s.claims[p]].attempts > 0)
    && (forall p :: 0 <= p < |s.deliveries| ==> s.rows[s.deliveries[p]].status == Delivered)
  }

  /** Rows move on: nothing is renumbered, and history is not undone. */
  ghost predicate Continues(rows: seq<OutRow>, rows': seq<OutRow>)
  {
    && |rows| <= |rows'|
    && forall i :: 0 <= i < |rows| ==> rows'[i].lane == rows[i].lane && rows[i].attempts <= rows'[i].attempts
  }

  lemma LaneOrderStays(rows: seq<OutRow>, rows': seq<OutRow>, log: seq<nat>, strictly: bool)
    requires LaneOrdered(rows, log, strictly) && Continues(rows, rows')
    ensures LaneOrdered(rows', log, strictly)
  {
    forall p, q | 0 <= p < q < |log| && SameLane(rows', log[p], log[q])
      ensures log[p] <= log[q] && (strictly ==> log[p] < log[q])
    {
      assert SameLane(rows, log[p], log[q]);
    }
  }

  lemma EnqueueKeeps(s: Box, e: Event, maxAttempts: nat)
    requires Inv(s) && e.Enqueue?
    ensures Inv(Apply(s, e, maxAttempts))
  {
    var s' := Apply(s, e, maxAttempts);
    LaneOrderStays(s.rows, s'.rows, s.claims, false);
    LaneOrderStays(s.rows, s'.rows, s.deliveries, true);
    forall i, j | 0 <= i < j < |s'.rows| && SameLane(s'.rows, i, j)
      ensures !s'.rows[j].deleted && s'.rows[j].Touched() ==> !s'.rows[i].Open()
      ensures s'.rows[j].deleted ==> s'.rows[i].deleted
    {
      if j < |s.rows| {
        assert SameLane(s.rows, i, j);
      }
    }
  }

  lemma DeleteKeeps(s: Box, e: Event, maxAttempts: nat)
    requires Inv(s) && e.DeleteLanes?
    ensures Inv(Apply(s, e, maxAttempts))
  {
    var s' := Apply(s, e, maxAttempts);
    LaneOrderStays(s.rows, s'.rows, s.claims, false);
    LaneOrderStays(s.rows, s'.rows, s.deliveries, true);
    forall i, j | 0 <= i < j < |s'.rows| && SameLane(s'.rows, i, j)
      ensures !s'.rows[j].deleted && s'.rows[j].Touched() ==> !s'.rows[i].Open()
      ensures s'.rows[j].deleted ==> s'.rows[i].deleted
    {
      assert SameLane(s.rows, i, j);
    }
  }

  /** Claiming candidates keeps the order, whichever of them are taken. */
  lemma ClaimKeepsFifo(rows: seq<OutRow>, ids: seq<nat>, now: Time, reclaimBefore: Time, clock: Time)
    requires LaneFifo(rows)
    requires forall p :: 0 <= p < |ids| ==> ids[p] < |rows| && Candidate(rows, ids[p], now, reclaimBefore)
    ensures LaneFifo(ClaimRows(rows, ids, clock)) && (WholeLanes(rows) ==> WholeLanes(ClaimRows(rows, ids, clock)))
    ensures Continues(rows, ClaimRows(rows, ids, clock))
  {
    var rows' := ClaimRows(rows, ids, clock);
    assert forall p :: 0 <= p < |ids| ==> Candidate(rows, ids[p], now, reclaimBefore) && rows[ids[p]].Open();
    forall i, j | 0 <= i < j < |rows'| && SameLane(rows', i, j)
      ensures !rows'[j].deleted && rows'[j].Touched() ==> !rows'[i].Open()
      ensures WholeLanes(rows) && rows'[j].deleted ==> rows'[i].deleted
    {
      assert SameLane(rows, i, j);
      if !rows[j].deleted && rows'[j].Touched() {
        assert !rows[i].Open() by {
          if j in ids {
            assert Candidate(rows, j, now, reclaimBefore);
          }
        }
      }
    }
  }

  /** A claimed row comes at or after everything its lane has claimed before. */
  lemma ClaimKeepsOrder(rows: seq<OutRow>, claims: seq<nat>, ids: seq<nat>, now: Time, reclaimBefore: Time)
    requires LaneFifo(rows) && WholeLanes(rows) && LaneOrdered(rows, claims, false)
    requires forall p :: 0 <= p < |claims| ==> rows[claims[p]].attempts > 0
    requires forall p :: 0 <= p < |ids| ==> ids[p] < |rows| && Candidate(rows, ids[p], now, reclaimBefore)
    requires forall i, j :: 0 <= i < j < |ids| ==> ids[i] < ids[j]
    ensures LaneOrdered(rows, claims + ids, false)
  {
    var log := claims + ids;
    forall p, q | 0 <= p < q < |log| && SameLane(rows, log[p], log[q]) ensures log[p] <= log[q] {
      if p < |claims| <= q {
        assert Candidate(rows, ids[q - |claims|], now, reclaimBefore);
        if log[q] < log[p] {
          assert SameLane(rows, log[q], log[p]);
        }
      }
    }
  }

  lemma ClaimKeeps(s: Box, e: Event, maxAttempts: nat)
    requires Inv(s) && e.Claim?
    ensures Inv(Apply(s, e, maxAttempts))
  {
    hide LaneFifo, WholeLanes, Batch;
    var s' := Apply(s, e, maxAttempts);
    var ids := Batch(s.rows, 0, e.now, e.reclaimBefore, BatchLimit(e.limit), e.locked);
    BatchHoldsCandidates(s.rows, 0, e.now, e.reclaimBefore, BatchLimit(e.limit), e.locked);
    ClaimKeepsFifo(s.rows, ids, e.now, e.reclaimBefore, e.clock);
    ClaimKeepsOrder(s.rows, s.claims, ids, e.now, e.reclaimBefore);
    LaneOrderStays(s.rows, s'.rows, s'.claims, false);
    LaneOrderStays(s.rows, s'.rows, s.deliveries, true);
    ClaimKeepsDeliveries(s.rows, ids, e.now, e.reclaimBefore, e.clock);
    forall p | 0 <= p < |s'.claims| ensures s'.rows[s'.claims[p]].attempts > 0 {
      if p >= |s.claims| {
        assert s'.claims[p] in ids;
      }
    }
  }

  lemma ClaimKeepsDeliveries(rows: seq<OutRow>, ids: seq<nat>, now: Time, reclaimBefore: Time, clock: Time)
    requires forall p :: 0 <= p < |ids| ==> ids[p] < |rows| && Candidate(rows, ids[p], now, reclaimBefore)
    ensures var rows' := ClaimRows(rows, ids, clock);
            && (forall i :: 0 <= i < |rows| && rows[i].status == Delivered ==> rows'[i] == rows[i])
            && (forall p :: 0 <= p < |ids| ==> rows'[ids[p]].attempts > 0)
  {
    var rows' := ClaimRows(rows, ids, clock);
    forall i | 0 <= i < |rows|
      ensures rows[i].status == Delivered ==> rows'[i] == rows[i]
    {
      if i in ids {
        assert Candidate(rows, i, now, reclaimBefore);
      }
    }
    forall p | 0 <= p < |ids| ensures rows'[ids[p]].attempts > 0 {
      assert ids[p] in ids;
    }
  }

  lemma FinishKeepsFifo(rows: seq<OutRow>, id: nat, m: Mark, clock: Time)
    requires LaneFifo(rows) && WholeLanes(rows) && id < |rows| && !rows[id].deleted && rows[id].status == Delivering
    ensures var rows' := rows[id := MarkRow(rows[id], m, clock)]; LaneFifo(rows') && WholeLanes(rows') && Continues(rows, rows')
  {
    var rows' := rows[id := MarkRow(rows[id], m, clock)];
    forall i, j | 0 <= i < j < |rows'| && SameLane(rows', i, j)
      ensures !rows'[j].deleted && rows'[j].Touched() ==> !rows'[i].Open()
      ensures rows'[j].deleted ==> rows'[i].deleted
    {
      assert SameLane(rows, i, j);
    }
  }

  lemma FinishKeeps(s: Box, e: Event, maxAttempts: nat)
    requires Inv(s) && e.Finish? && Prompt(s, e)
    ensures Inv(Apply(s, e, maxAttempts))
  {
    var s' := Apply(s, e, maxAttempts);
    if Marks(s, e) {
      var m := ProcessDelivery(e.enabled, e.reply, e.attempt, maxAttempts, e.retryAt);
      FinishKeepsFifo(s.rows, e.id, m, e.clock);
      LaneOrderStays(s.rows, s'.rows, s.claims, false);
      DeliveryKeepsOrder(s.rows, s.deliveries, e.id);
      LaneOrderStays(s.rows, s'.rows, s'.deliveries, true);
    }
  }

  lemma DeliveryKeepsOrder(rows: seq<OutRow>, deliveries: seq<nat>, id: nat)
    requires LaneFifo(rows) && WholeLanes(rows) && LaneOrdered(rows, deliveries, true)
    requires forall p :: 0 <= p < |deliveries| ==> rows[deliveries[p]].status == Delivered
    requires id < |rows| && !rows[id].deleted && rows[id].status == Delivering
    ensures LaneOrdered(rows, deliveries + [id], true)
  {
    var log := deliveries + [id];
    forall p | 0 <= p < |deliveries| && SameLane(rows, log[p], id) ensures log[p] < id {
      if id < log[p] {
        assert SameLane(rows, id, log[p]);
      }
    }
  }

  lemma ApplyKeeps(s: Box, e: Event, maxAttempts: nat)
    requires Inv(s) && Prompt(s, e)
    ensures Inv(Apply(s, e, maxAttempts))
  {
    hide Inv, Apply;
    match e
    case Enqueue(_, _, _) => EnqueueKeeps(s, e, maxAttempts);
    case Claim(_, _, _, _, _) => ClaimKeeps(s, e, maxAttempts);
    case Finish(_, _, _, _, _, _) => FinishKeeps(s, e, maxAttempts);
    case DeleteLanes(_) => DeleteKeeps(s, e, maxAttempts);
  }

  lemma {:induction false} RunKeeps(s: Box, es: seq<Event>, maxAttempts: nat)
    requires Inv(s) && PromptRun(s, es, maxAttempts)
    ensures Inv(Run(s, es, maxAttempts))
  {
    hide Inv, Apply;
    if es != [] {
      RunKeeps(s, es[..|es|-1], maxAttempts);
      ApplyKeeps(Run(s, es[..|es|-1], maxAttempts), es[|es|-1], maxAttempts);
    }
  }

  lemma EmptyOk()
    ensures Inv(EMPTY)
  {}

  lemma BehindAnOpenRow(rows: seq<OutRow>, i: nat, j: nat)
    requires LaneFifo(rows) && i < j < |rows|
    ensures rows[i].lane == rows[j].lane && !rows[j].deleted && rows[i].Open() ==> rows[j].status == Pending && rows[j].attempts == 0
  {
    assert rows[i].lane == rows[j].lane ==> SameLane(rows, i, j);
  }

  /** Within a lane finished rows come first, and only the row right after them can ever have been tried. */
  lemma LanesAreFifo(es: seq<Event>, maxAttempts: nat, i: nat, j: nat)
    requires PromptRun(EMPTY, es, maxAttempts)
    requires i < j < |Run(EMPTY, es, maxAttempts).rows|
    ensures var rows := Run(EMPTY, es, maxAttempts).rows;
            rows[i].lane == rows[j].lane && !rows[j].deleted && rows[i].Open() ==> rows[j].status == Pending && rows[j].attempts == 0
  {
    hide *;
    EmptyOk();
    RunKeeps(EMPTY, es, maxAttempts);
    InvMeansFifo(Run(EMPTY, es, maxAttempts));
    BehindAnOpenRow(Run(EMPTY, es, maxAttempts).rows, i, j);
  }

  lemma InvMeansFifo(s: Box)
    requires Inv(s)
    ensures LaneFifo(s.rows)
  {}

  lemma LogsInOrder(s: Box)
    requires Inv(s)
    ensures LaneOrdered(s.rows, s.claims, false) && LaneOrdered(s.rows, s.deliveries, true)
  {}

  /** The attempts of one lane happen in the order of its rows; so do its deliveries, and no row is delivered twice. */
  lemma LanesAreServedInOrder(es: seq<Event>, maxAttempts: nat)
    requires PromptRun(EMPTY, es, maxAttempts)
    ensures var end := Run(EMPTY, es, maxAttempts);
            LaneOrdered(end.rows, end.claims, false) && LaneOrdered(end.rows, end.deliveries, true)
  {
    hide Inv, LaneOrdered;
    EmptyOk();
    RunKeeps(EMPTY, es, maxAttempts);
    LogsInOrder(Run(EMPTY, es, maxAttempts));
  }

  // ---------- how often a row is tried ----------

  /** The attempts below the limit that a worker has reported on; a retry can only come from one of them. */
  function Reported(held: set<Job>, i: nat, attempts: nat, maxAttempts: nat): (rs: set<nat>)
  {
    set a | 1 <= a <= attempts && a < maxAttempts && Job(i, a) !in held
  }

  ghost predicate RowOk(held: set<Job>, i: nat, r: OutRow, maxAttempts: nat)
  {
    && r.attempts + (if r.status == Pending then 1 else 0) <= 1 + |Reported(held, i, r.attempts, maxAttempts)| + r.reclaims
    && (!r.deleted && r.status == Delivering ==> Job(i, r.attempts) in held)
  }

  /** Workers hold only jobs they were given. */
  ghost predicate JobsOk(rows: seq<OutRow>, held: set<Job>)
  {
    forall j :: j in held ==> j.id < |rows| && 1 <= j.attempt <= rows[j.id].attempts
  }

  ghost predicate CountsOk(s: Box, maxAttempts: nat)
  {
    JobsOk(s.rows, s.held) && forall i :: 0 <= i < |s.rows| ==> RowOk(s.held, i, s.rows[i], maxAttempts)
  }

  /** The claim is a claim of this row, and the job a job of another row or a later one. */
  lemma ClaimRowOk(held: set<Job>, held': set<Job>, i: nat, r: OutRow, clock: Time, maxAttempts: nat)
    requires RowOk(held, i, r, maxAttempts) && !r.Terminal() && JobsOf(held', i) == JobsOf(held, i) + {Job(i, r.attempts + 1)}
    ensures RowOk(held', i, ClaimRow(r, clock), maxAttempts)
  {
    assert forall a :: Job(i, a) in held' <==> Job(i, a) in JobsOf(held', i);
    assert forall a :: Job(i, a) in held <==> Job(i, a) in JobsOf(held, i);
    assert Reported(held', i, r.attempts + 1, maxAttempts) == Reported(held, i, r.attempts, maxAttempts);
  }

  function JobsOf(held: set<Job>, i: nat): set<Job>
  {
    set j | j in held && j.id == i
  }

  lemma OtherRowOk(held: set<Job>, held': set<Job>, i: nat, r: OutRow, maxAttempts: nat)
    requires RowOk(held, i, r, maxAttempts) && JobsOf(held', i) == JobsOf(held, i)
    ensures RowOk(held', i, r, maxAttempts)
  {
    assert forall a :: Job(i, a) in held' <==> Job(i, a) in JobsOf(held', i);
    assert forall a :: Job(i, a) in held <==> Job(i, a) in JobsOf(held, i);
    assert Reported(held', i, r.attempts, maxAttempts) == Reported(held, i, r.attempts, maxAttempts);
  }

  lemma ReportedRowOk(held: set<Job>, i: nat, attempt: nat, r: OutRow, maxAttempts: nat)
    requires RowOk(held, i, r, maxAttempts) && Job(i, attempt) in held && 1 <= attempt <= r.attempts
    ensures r.deleted ==> RowOk(held - {Job(i, attempt)}, i, r, maxAttempts)
    ensures forall m: Mark, clock: Time :: (m.MarkRetry? ==> attempt < maxAttempts) ==> RowOk(held - {Job(i, attempt)}, i, MarkRow(r, m, clock), maxAttempts)
  {
    var before, now := Reported(held, i, r.attempts, maxAttempts), Reported(held - {Job(i, attempt)}, i, r.attempts, maxAttempts);
    assert now == if attempt < maxAttempts then before + {attempt} else before;
  }

  lemma ClaimKeepsCounts(s: Box, e: Event, maxAttempts: nat)
    requires CountsOk(s, maxAttempts) && e.Claim?
    ensures CountsOk(Apply(s, e, maxAttempts), maxAttempts)
  {
    hide Batch, FirstOpen, RowOk;
    var s' := Apply(s, e, maxAttempts);
    var ids := Batch(s.rows, 0, e.now, e.reclaimBefore, BatchLimit(e.limit), e.locked);
    BatchHoldsCandidates(s.rows, 0, e.now, e.reclaimBefore, BatchLimit(e.limit), e.locked);
    forall i | 0 <= i < |s.rows| ensures RowOk(s'.held, i, s'.rows[i], maxAttempts) {
      if i in ids {
        assert Candidate(s.rows, i, e.now, e.reclaimBefore);
        ClaimRowOk(s.held, s'.held, i, s.rows[i], e.clock, maxAttempts);
      } else {
        OtherRowOk(s.held, s'.held, i, s.rows[i], maxAttempts);
      }
    }
  }

  lemma FinishKeepsCounts(s: Box, e: Event, maxAttempts: nat)
    requires CountsOk(s, maxAttempts) && e.Finish?
    ensures CountsOk(Apply(s, e, maxAttempts), maxAttempts)
  {
    hide RowOk;
    var s' := Apply(s, e, maxAttempts);
    if Job(e.id, e.attempt) in s.held {
      ReportedRowOk(s.held, e.id, e.attempt, s.rows[e.id], maxAttempts);
      forall i | 0 <= i < |s.rows| ensures RowOk(s'.held, i, s'.rows[i], maxAttempts) {
        if i != e.id {
          assert JobsOf(s'.held, i) == JobsOf(s.held, i);
          OtherRowOk(s.held, s'.held, i, s.rows[i], maxAttempts);
        }
      }
    }
  }

  lemma OtherKeepsCounts(s: Box, e: Event, maxAttempts: nat)
    requires CountsOk(s, maxAttempts) && (e.Enqueue? || e.DeleteLanes?)
    ensures CountsOk(Apply(s, e, maxAttempts), maxAttempts)
  {}

  lemma StepKeepsCounts(s: Box, e: Event, maxAttempts: nat)
    requires CountsOk(s, maxAttempts)
    ensures CountsOk(Apply(s, e, maxAttempts), maxAttempts)
  {
    hide CountsOk, Apply;
    match e
    case Enqueue(_, _, _) => OtherKeepsCounts(s, e, maxAttempts);
    case Claim(_, _, _, _, _) => ClaimKeepsCounts(s, e, maxAttempts);
    case Finish(_, _, _, _, _, _) => FinishKeepsCounts(s, e, maxAttempts);
    case DeleteLanes(_) => OtherKeepsCounts(s, e, maxAttempts);
  }

  lemma {:induction false} CountsStayOk(s: Box, es: seq<Event>, maxAttempts: nat)
    requires CountsOk(s, maxAttempts)
    ensures CountsOk(Run(s, es, maxAttempts), maxAttempts)
  {
    hide CountsOk, Apply;
    if es != [] {
      CountsStayOk(s, es[..|es|-1], maxAttempts);
      StepKeepsCounts(Run(s, es[..|es|-1], maxAttempts), es[|es|-1], maxAttempts);
    }
  }

  lemma {:induction false} AtMostAllBelow(rs: set<nat>, n: nat)
    requires forall a :: a in rs ==> 1 <= a < n
    ensures |rs| <= if n == 0 then 0 else n - 1
  {
    if n > 1 {
      AtMostAllBelow(rs - {n - 1}, n - 1);
    } else if a :| a in rs {
      assert false;
    }
  }

  lemma RowIsBounded(held: set<Job>, i: nat, r: OutRow, maxAttempts: nat)
    requires RowOk(held, i, r, maxAttempts) && maxAttempts > 0
    ensures r.attempts + (if r.status == Pending then 1 else 0) <= maxAttempts + r.reclaims
  {
    AtMostAllBelow(Reported(held, i, r.attempts, maxAttempts), maxAttempts);
  }

  /**
   * No row is tried more often than the limit allows, plus once for every claim that was taken over,
   * however late workers report; and a row that waits for another attempt has one left.
   */
  lemma AttemptsAreBounded(es: seq<Event>, maxAttempts: nat, i: nat)
    requires maxAttempts > 0 && i < |Run(EMPTY, es, maxAttempts).rows|
    ensures var r := Run(EMPTY, es, maxAttempts).rows[i];
            r.attempts + (if r.status == Pending then 1 else 0) <= maxAttempts + r.reclaims
  {
    CountsStayOk(EMPTY, es, maxAttempts);
    var end := Run(EMPTY, es, maxAttempts);
    RowIsBounded(end.held, i, end.rows[i], maxAttempts);
  }

  // ---------- exactly when lanes stay in order ----------

  /** Exactly when an update by id keeps a lane in order: a retry needs nothing tried behind it, an ending nothing open before it. */
  lemma MarkKeepsFifoIff(rows: seq<OutRow>, id: nat, m: Mark, clock: Time)
    requires LaneFifo(rows) && id < |rows| && !rows[id].deleted
    ensures LaneFifo(rows[id := MarkRow(rows[id], m, clock)])
        <==> if m.MarkRetry? then Untouched(rows, id) else NothingOpenBefore(rows, id)
  {
    var rows' := rows[id := MarkRow(rows[id], m, clock)];
    assert forall i, j :: 0 <= i < |rows| && 0 <= j < |rows| ==> SameLane(rows', i, j) == SameLane(rows, i, j);
  }

  predicate Untouched(rows: seq<OutRow>, id: nat)
    requires id < |rows|
  {
    forall j :: id < j < |rows| && SameLane(rows, id, j) && !rows[j].deleted ==> !rows[j].Touched()
  }

  predicate NothingOpenBefore(rows: seq<OutRow>, id: nat)
    requires id < |rows|
  {
    forall i :: 0 <= i < id && SameLane(rows, i, id) ==> !rows[i].Open()
  }

  /** A retry needs nothing tried behind it, an ending nothing open before it. */
  predicate KeepsOrder(s: Box, e: Event, maxAttempts: nat)
  {
    Marks(s, e) ==>
      if ProcessDelivery(e.enabled, e.reply, e.attempt, maxAttempts, e.retryAt).MarkRetry? then Untouched(s.rows, e.id)
      else NothingOpenBefore(s.rows, e.id)
  }

  lemma StepKeepsFifoIff(s: Box, e: Event, maxAttempts: nat)
    requires LaneFifo(s.rows)
    ensures LaneFifo(Apply(s, e, maxAttempts).rows) <==> KeepsOrder(s, e, maxAttempts)
  {
    match e
    case Enqueue(_, _, _) => OthersKeepFifo(s, e, maxAttempts);
    case DeleteLanes(_) => OthersKeepFifo(s, e, maxAttempts);
    case Claim(_, _, _, _, _) => ClaimStepKeepsFifo(s, e, maxAttempts);
    case Finish(_, _, _, _, _, _) =>
      if Marks(s, e) {
        hide LaneFifo;
        MarkKeepsFifoIff(s.rows, e.id, ProcessDelivery(e.enabled, e.reply, e.attempt, maxAttempts, e.retryAt), e.clock);
      }
  }

  lemma OthersKeepFifo(s: Box, e: Event, maxAttempts: nat)
    requires LaneFifo(s.rows) && (e.Enqueue? || e.DeleteLanes?)
    ensures LaneFifo(Apply(s, e, maxAttempts).rows)
  {
    var rows' := Apply(s, e, maxAttempts).rows;
    forall i, j | 0 <= i < j < |rows'| && SameLane(rows', i, j) && !rows'[j].deleted && rows'[j].Touched()
      ensures !rows'[i].Open()
    {
      assert SameLane(s.rows, i, j);
    }
  }

  lemma ClaimStepKeepsFifo(s: Box, e: Event, maxAttempts: nat)
    requires LaneFifo(s.rows) && e.Claim?
    ensures LaneFifo(Apply(s, e, maxAttempts).rows)
  {
    hide LaneFifo, Batch, Candidate;
    BatchHoldsCandidates(s.rows, 0, e.now, e.reclaimBefore, BatchLimit(e.limit), e.locked);
    ClaimKeepsFifo(s.rows, Batch(s.rows, 0, e.now, e.reclaimBefore, BatchLimit(e.limit), e.locked), e.now, e.reclaimBefore, e.clock);
  }

  ghost predicate FifoThroughout(s: Box, es: seq<Event>, maxAttempts: nat)
  {
    LaneFifo(Run(s, es, maxAttempts).rows) && (es == [] || FifoThroughout(s, es[..|es|-1], maxAttempts))
  }

  ghost predicate ReportsKeepOrder(s: Box, es: seq<Event>, maxAttempts: nat)
  {
    es == [] || (ReportsKeepOrder(s, es[..|es|-1], maxAttempts) && KeepsOrder(Run(s, es[..|es|-1], maxAttempts), es[|es|-1], maxAttempts))
  }

  /** Lanes stay in order throughout a run if and only if every report finds its neighbours as the update needs them. */
  lemma {:induction false} LanesStayFifoIff(s: Box, es: seq<Event>, maxAttempts: nat)
    requires LaneFifo(s.rows)
    ensures FifoThroughout(s, es, maxAttempts) <==> ReportsKeepOrder(s, es, maxAttempts)
  {
    hide LaneFifo, KeepsOrder, Apply;
    if es != [] {
      LanesStayFifoIff(s, es[..|es|-1], maxAttempts);
      if FifoThroughout(s, es[..|es|-1], maxAttempts) {
        FifoAtTheEnd(s, es[..|es|-1], maxAttempts);
        StepKeepsFifoIff(Run(s, es[..|es|-1], maxAttempts), es[|es|-1], maxAttempts);
      }
    }
  }

  lemma FifoAtTheEnd(s: Box, es: seq<Event>, maxAttempts: nat)
    requires FifoThroughout(s, es, maxAttempts)
    ensures LaneFifo(Run(s, es, maxAttempts).rows)
  {}

  // ---------- a worker that outlives its claim ----------

  const LANE := Lane(0, 0, 0)

  /** The first worker stalls, its row is reclaimed and delivered, the next row is claimed; then the first worker reports a failure. */
  const STALE := [Enqueue(LANE, 0, 0), Enqueue(LANE, 0, 0),
                  Claim(0, -1, 1, {}, 0), Claim(1, 0, 1, {}, 1), Finish(0, 2, true, Replied(200), 0, 1),
                  Claim(2, 1, 1, {}, 2), Finish(0, 1, true, Replied(503), 9, 2)]

  lemma NextBox(es: seq<Event>, i: nat, t: Box)
    requires i < |es| && Run(EMPTY, es[..i], 8) == t
    ensures Run(EMPTY, es[..i+1], 8) == Apply(t, es[i], 8)
  {
    assert es[..i+1][..i] == es[..i];
  }

  const FIRST := OutRow(LANE, Delivering, 1, 0, 0, false, 0)
  const SECOND := OutRow(LANE, Pending, 0, 0, 0, false, 0)

  lemma ClaimsTheFirst(rows: seq<OutRow>, now: Time, reclaimBefore: Time, first: nat)
    requires |rows| == 2 && first < 2 && rows[0].lane == rows[1].lane
    requires first == 0 ==> Due(rows[0], now, reclaimBefore)
    requires first == 1 ==> !rows[0].Open() && Due(rows[1], now, reclaimBefore)
    ensures Batch(rows, 0, now, reclaimBefore, 1, {}) == [first]
  {
    assert Batch(rows, first + 1, now, reclaimBefore, 0, {}) == [];
    assert Batch(rows, first, now, reclaimBefore, 1, {}) == [first];
    assert first == 1 ==> !Candidate(rows, 0, now, reclaimBefore);
  }

  lemma StaleBegins()
    ensures Run(EMPTY, STALE[..3], 8) == Box([FIRST, SECOND], {Job(0, 1)}, [0], [])
  {
    hide Run, Batch;
    assert Run(EMPTY, STALE[..0], 8) == EMPTY by { assert STALE[..0] == []; EmptyRun(); }
    NextBox(STALE, 0, EMPTY);
    NextBox(STALE, 1, Box([SECOND], {}, [], []));
    var s := Box([SECOND, SECOND], {}, [], []);
    ClaimsTheFirst(s.rows, 0, -1, 0);
    NextBox(STALE, 2, s);
    assert ClaimRows(s.rows, [0], 0) == [FIRST, SECOND];
    assert 0 in [0] && Jobs([FIRST, SECOND], [0]) == {Job(0, 1)};
  }

  lemma EmptyRun()
    ensures Run(EMPTY, [], 8) == EMPTY
  {}

  lemma StaleReclaims()
    ensures Run(EMPTY, STALE[..5], 8) == Box([FIRST.(status := Delivered, attempts := 2, updatedAt := 1, reclaims := 1), SECOND], {Job(0, 1)}, [0, 0], [0])
  {
    hide Run, Batch;
    StaleBegins();
    var s := Box([FIRST, SECOND], {Job(0, 1)}, [0], []);
    ClaimsTheFirst(s.rows, 1, 0, 0);
    NextBox(STALE, 3, s);
    s := Box([FIRST.(attempts := 2, updatedAt := 1, reclaims := 1), SECOND], {Job(0, 1), Job(0, 2)}, [0, 0], []);
    assert ClaimRows([FIRST, SECOND], [0], 1) == s.rows;
    assert 0 in [0] && Jobs(s.rows, [0]) == {Job(0, 2)};
    NextBox(STALE, 4, s);
  }

  /** The rule that only the current claimant finishes a row is needed: without it a lane can run out of order. */
  lemma StaleWorkersBreakTheOrder()
    ensures !LaneFifo(Run(EMPTY, STALE, 8).rows) && !PromptRun(EMPTY, STALE, 8)
  {
    hide Run, Batch;
    StaleReclaims();
    var s := Box([FIRST.(status := Delivered, attempts := 2, updatedAt := 1, reclaims := 1), SECOND], {Job(0, 1)}, [0, 0], [0]);
    ClaimsTheFirst(s.rows, 2, 1, 1);
    NextBox(STALE, 5, s);
    s := Box([s.rows[0], FIRST.(updatedAt := 2)], {Job(0, 1), Job(1, 1)}, [0, 0, 1], [0]);
    assert ClaimRows([s.rows[0], SECOND], [1], 2) == s.rows;
    assert 1 in [1] && Jobs(s.rows, [1]) == {Job(1, 1)};
    assert [0, 0] + [1] == [0, 0, 1];
    NextBox(STALE, 6, s);
    assert STALE[..|STALE|-1] == STALE[..6] && !Prompt(s, STALE[6]);
    assert STALE[..7] == STALE;
    var rows := Run(EMPTY, STALE, 8).rows;
    assert SameLane(rows, 0, 1) && rows[0].Open() && rows[1].Touched();
  }
}
