/**
 * What the service answers and writes, said in the tables' own columns: when a call succeeds, which
 * error each failing condition gives, and every row it leaves behind.
 */
module RoomAnswers {
  import opened Prelude
  import opened RoomLifecycle
  import opened RoomTables
  import opened RoomOps
  import opened RoomInvariant

  // ---------- revoking ----------

  /** Of one room, the unrevoked tokens of these holders are revoked at this time; no other row changes. */
  ghost predicate RevokesExactly(before: seq<Token>, after: seq<Token>, r: RoomId, holders: set<AgentId>, at: Time)
  {
    && |after| == |before|
    && forall i :: 0 <= i < |before| ==>
         after[i] == if before[i].room == r && before[i].agent in holders && before[i].revokedAt == None
                     then before[i].(revokedAt := Some(at)) else before[i]
  }

  function Holders(rm: Room): set<AgentId>
  {
    if rm.agentB.Some? then {rm.agentA, rm.agentB.value} else {rm.agentA}
  }

  lemma RevokingIsExact(ts: seq<Token>, r: RoomId, rm: Room, at: Time)
    ensures RevokesExactly(ts, RevokeParticipants(ts, r, rm, at), r, Holders(rm), at)
  {
    var noA := RevokeAgent(ts, r, rm.agentA, at);
    assert forall i :: 0 <= i < |ts| ==> noA[i] == Revoked(ts[i], r, rm.agentA, at);
    if rm.agentB.Some? {
      var noB := RevokeAgent(noA, r, rm.agentB.value, at);
      assert forall i :: 0 <= i < |ts| ==> noB[i] == Revoked(noA[i], r, rm.agentB.value, at);
    }
  }

  // ---------- closing and purging ----------

  /** Each participant once, A first, may read the notice for half an hour. */
  ghost predicate Tells(before: seq<Delivery>, after: seq<Delivery>, r: RoomId, rm: Room, n: Notice, at: Time)
  {
    if rm.agentB.Some? && rm.agentB.value != rm.agentA
    then after == before + [Delivery(rm.agentA, r, n, at + 1800), Delivery(rm.agentB.value, r, n, at + 1800)]
    else after == before + [Delivery(rm.agentA, r, n, at + 1800)]
  }

  /** Nothing but state, time of closing, tokens and notices changes when a room closes. */
  ghost predicate Closes(db: Db, d: Db, r: RoomId, at: Time)
    requires r in db.rooms
  {
    var rm := db.rooms[r];
    && d.rooms == db.rooms[r := rm.(state := Closed, closedAt := Some(at))]
    && RevokesExactly(db.tokens, d.tokens, r, Holders(rm), at)
    && Tells(db.deliveries, d.deliveries, r, rm, RoomClosed, at)
    && d.messages == db.messages && d.viewers == db.viewers && d.listings == db.listings && d.policy == db.policy
  }

  lemma ClosingIsExact(db: Db, r: RoomId, at: Time)
    requires r in db.rooms
    ensures Closes(db, CloseNow(db, r, at), r, at)
  {
    hide RevokeParticipants;
    RevokingIsExact(db.tokens, r, db.rooms[r].(state := Closed, closedAt := Some(at)), at);
  }

  /** A purge also deletes the messages and the viewers of the room, and no others. */
  ghost predicate Purges(db: Db, d: Db, r: RoomId, closedAt: Time, at: Time)
    requires r in db.rooms
  {
    var rm := db.rooms[r];
    && d.rooms == db.rooms[r := rm.(state := Purged, closedAt := Some(closedAt), purgedAt := Some(at))]
    && RevokesExactly(db.tokens, d.tokens, r, Holders(rm), at)
    && Tells(db.deliveries, d.deliveries, r, rm, RoomPurged, at)
    && (forall m :: multiset(d.messages)[m] == if m.room == r then 0 else multiset(db.messages)[m])
    && d.viewers == (map v | v in db.viewers && db.viewers[v].room != r :: db.viewers[v])
    && d.listings == db.listings && d.policy == db.policy
  }

  lemma {:induction false} DeletingIsExact(ms: seq<Message>, r: RoomId, m: Message)
    ensures multiset(WithoutRoom(ms, r))[m] == if m.room == r then 0 else multiset(ms)[m]
  {
    if ms != [] {
      DeletingIsExact(ms[..|ms|-1], r, m);
      assert ms == ms[..|ms|-1] + [ms[|ms|-1]];
    }
  }

  lemma PurgingIsExact(db: Db, r: RoomId, closedAt: Time, at: Time)
    requires r in db.rooms
    ensures Purges(db, PurgeNow(db.(rooms := db.rooms[r := db.rooms[r].(closedAt := Some(closedAt))]), r, at), r, closedAt, at)
  {
    hide RevokeParticipants, WithoutRoom;
    var rm := db.rooms[r].(closedAt := Some(closedAt), state := Purged, purgedAt := Some(at));
    RevokingIsExact(db.tokens, r, rm, at);
    forall m ensures multiset(WithoutRoom(db.messages, r))[m] == if m.room == r then 0 else multiset(db.messages)[m] {
      DeletingIsExact(db.messages, r, m);
    }
  }

  /** Nobody watches the room: every viewer of it has left or was not heard from for too long. */
  ghost predicate Unwatched(db: Db, cfg: Config, r: RoomId, now: Time)
  {
    forall v :: v in db.viewers && db.viewers[v].room == r ==> db.viewers[v].left || db.viewers[v].lastHeartbeat < now - cfg.heartbeat
  }

  /**
   * Reading a room closes it if and only if its time is up, and purges a closed one if and only if its
   * retention has run out, or its grace has and nobody watches; otherwise a closed room without a
   * closing time gets one, and nothing else changes.
   */
  lemma ReconcileAnswers(db: Db, cfg: Config, r: RoomId, now: Time)
    requires r in db.rooms
    ensures var rm, d := db.rooms[r], Reconcile(db, cfg, r, now);
            && r in d.rooms
            && (rm.state == Open || rm.state == Active ==>
                  && (d.rooms[r].state == Closed <==> now > rm.ttlAt)
                  && if now > rm.ttlAt then Closes(db, d, r, now) else d == db)
            && (rm.state == Closed ==>
                  var closedAt := if rm.closedAt.Some? then rm.closedAt.value else now;
                  && (d.rooms[r].state == Purged <==>
                        now - closedAt >= cfg.cap || (now - closedAt >= cfg.grace && Unwatched(db, cfg, r, now)))
                  && if d.rooms[r].state == Purged then Purges(db, d, r, closedAt, now)
                     else d == db.(rooms := db.rooms[r := rm.(closedAt := Some(closedAt))]))
            && (rm.state == Purged ==> d == db)
  {
    hide CloseNow, PurgeNow;
    var rm := db.rooms[r];
    ClosingIsExact(db, r, now);
    if rm.state == Closed {
      var closedAt := if rm.closedAt.Some? then rm.closedAt.value else now;
      PurgingIsExact(db, r, closedAt, now);
      assert HasActiveViewer(db, cfg, r, now) <==> !Unwatched(db, cfg, r, now);
    }
  }

  // ---------- closing a room by request ----------

  /** The room has ended by the time the call looks at it. */
  ghost predicate OverAt(rm: Room, now: Time)
  {
    rm.state == Closed || rm.state == Purged || now > rm.ttlAt
  }

  /** A participant closes its room at its own reading of the clock, unless time, someone else or a purge was first. */
  lemma CloseAnswers(db: Db, cfg: Config, agent: AgentId, r: RoomId, t0: Time, t1: Time)
    requires Inv(db)
    ensures var (d, error) := CloseRoom(db, cfg, agent, r, t0, t1);
            && (error == Some(NotFound) <==> r !in db.rooms)
            && (r !in db.rooms ==> d == db)
            && (r in db.rooms ==>
                  var rm, seen := db.rooms[r], Reconcile(db, cfg, r, t0);
                  var mine := agent == rm.agentA || rm.agentB == Some(agent);
                  && (error == Some(Forbidden) <==> !mine)
                  && (error == Some(Gone) <==> mine && r in seen.rooms && seen.rooms[r].state == Purged)
                  && (error == None <==> mine && r in seen.rooms && seen.rooms[r].state != Purged)
                  && (if error == None && !OverAt(rm, t0) then Closes(db, d, r, t1) else d == seen))
  {
    hide Closes, Purges;
    if r in db.rooms {
      assert RoomOk(db.rooms[r], RowsOf(db, r));
      ReconcileAnswers(db, cfg, r, t0);
      SameParticipants(db, cfg, r, t0);
      hide RoomOk, RowsOf, Reconcile;
      ClosingIsExact(Reconcile(db, cfg, r, t0), r, t1);
    }
  }

  lemma SameParticipants(db: Db, cfg: Config, r: RoomId, now: Time)
    requires r in db.rooms
    ensures var rm, rm' := db.rooms[r], Reconcile(db, cfg, r, now).rooms[r];
            rm'.agentA == rm.agentA && rm'.agentB == rm.agentB && rm'.ttlAt == rm.ttlAt && rm'.turnIndex == rm.turnIndex && rm'.maxTurns == rm.maxTurns
  {}

  // ---------- sending ----------

  /** The sender's messages, in any room, dated within the last minute. */
  ghost function SentLately(ms: seq<Message>, x: AgentId, now: Time): set<int>
  {
    set i | 0 <= i < |ms| && ms[i].sender == x && ms[i].createdAt >= now - 60
  }

  /** The room's messages, by any sender, dated within the last minute. */
  ghost function SpokenLately(ms: seq<Message>, r: RoomId, now: Time): set<int>
  {
    set i | 0 <= i < |ms| && ms[i].room == r && ms[i].createdAt >= now - 60
  }

  lemma OneMoreMessage(ms: seq<Message>, x: AgentId, r: RoomId, now: Time)
    requires ms != []
    ensures var n := |ms| - 1;
            && SentLately(ms, x, now) == SentLately(ms[..n], x, now) + (if ms[n].sender == x && ms[n].createdAt >= now - 60 then {n} else {})
            && SpokenLately(ms, r, now) == SpokenLately(ms[..n], r, now) + (if ms[n].room == r && ms[n].createdAt >= now - 60 then {n} else {})
            && n !in SentLately(ms[..n], x, now) && n !in SpokenLately(ms[..n], r, now)
  {}

  lemma {:induction false} CountsAreSets(ms: seq<Message>, x: AgentId, r: RoomId, now: Time)
    ensures CountBySender(ms, x, now - 60) == |SentLately(ms, x, now)|
    ensures CountByRoom(ms, r, now - 60) == |SpokenLately(ms, r, now)|
  {
    if ms != [] {
      hide SentLately, SpokenLately;
      CountsAreSets(ms[..|ms|-1], x, r, now);
      OneMoreMessage(ms, x, r, now);
    }
  }

  /** A on even turns, B on odd ones. */
  ghost predicate ItsTurn(rm: Room, agent: AgentId)
  {
    if rm.turnIndex % 2 == 0 then agent == rm.agentA else rm.agentB == Some(agent)
  }

  /** Fewer than 30 messages of the sender and 60 of the room within the last minute. */
  ghost predicate UnderLimits(db: Db, agent: AgentId, r: RoomId, now: Time)
  {
    |SentLately(db.messages, agent, now)| < 30 && |SpokenLately(db.messages, r, now)| < 60
  }

  ghost predicate UnderPenalty(db: Db, agent: AgentId, now: Time)
  {
    agent in db.policy && db.policy[agent].blockedUntil.Some? && now < db.policy[agent].blockedUntil.value
  }

  /** The room takes this turn from this agent, at both readings of the clock. */
  ghost predicate TakesTurn(rm: Room, agent: AgentId, expectedTurn: int, t0: Time, t1: Time)
  {
    rm.state == Active && t0 <= rm.ttlAt && t1 <= rm.ttlAt && ItsTurn(rm, agent) && expectedTurn == rm.turnIndex
  }

  lemma {:induction false} SpokenTurnsAreSaid(ms: seq<Message>, r: RoomId, i: nat)
    requires i < |ms| && ms[i].room == r
    ensures Wake(ms[i].turn, ms[i].sender) in Said(ms, r)
  {
    var n := |ms| - 1;
    if i < n {
      SpokenTurnsAreSaid(ms[..n], r, i);
    }
  }

  /** The next turn is never taken already. */
  lemma NextTurnIsFree(db: Db, r: RoomId)
    requires Inv(db) && r in db.rooms && db.rooms[r].state == Active
    ensures !TurnTaken(db.messages, r, db.rooms[r].turnIndex)
  {
    hide Said, Wakes, Notified, Live;
    assert RoomOk(db.rooms[r], RowsOf(db, r));
    hide Inv, RoomOk;
    if i :| 0 <= i < |db.messages| && db.messages[i].room == r && db.messages[i].turn == db.rooms[r].turnIndex {
      SpokenTurnsAreSaid(db.messages, r, i);
      assert false;
    }
  }

  /** What the room itself refuses. */
  lemma RoomRefuses(db: Db, agent: AgentId, r: RoomId, expectedTurn: int, draft: Draft, now: Time)
    requires r in db.rooms && !TakesTurn(db.rooms[r], agent, expectedTurn, now, now) && (db.rooms[r].state == Active ==> db.rooms[r].agentB.Some?)
    ensures var rm, refusal := db.rooms[r], SendRefusal(db, agent, r, expectedTurn, draft, now);
            var mine := agent == rm.agentA || rm.agentB == Some(agent);
            refusal == Some(if !mine then Forbidden
                            else if rm.state == Closed || rm.state == Purged || (rm.state == Active && now > rm.ttlAt) then Gone
                            else if rm.state == Open then RoomNotActive else TurnMismatch)
  {
    hide CountBySender, CountByRoom, TurnTaken, Blocked;
  }

  /** What is refused to the agent whose turn it is. */
  lemma TurnRefuses(db: Db, agent: AgentId, r: RoomId, expectedTurn: int, draft: Draft, now: Time)
    requires r in db.rooms && TakesTurn(db.rooms[r], agent, expectedTurn, now, now) && !TurnTaken(db.messages, r, db.rooms[r].turnIndex)
    ensures var refusal := SendRefusal(db, agent, r, expectedTurn, draft, now);
            var free := draft.verdict != TooLarge && !UnderPenalty(db, agent, now);
            var counted := free && UnderLimits(db, agent, r, now);
            && (refusal == Some(PayloadTooLarge) <==> draft.verdict == TooLarge)
            && (refusal == Some(PolicyBlocked) <==> (draft.verdict != TooLarge && !free) || (counted && draft.verdict == Violation))
            && (refusal == Some(RateLimit) <==> free && !counted)
            && (refusal == Some(StaleBundleHash) <==> counted && draft.verdict == Allowed && !draft.current)
            && (refusal == None <==> counted && draft.verdict == Allowed && draft.current)
  {
    CountsAreSets(db.messages, agent, r, now);
    hide CountBySender, CountByRoom, SentLately, SpokenLately, TurnTaken;
    assert Blocked(db, agent, now) == UnderPenalty(db, agent, now);
    hide Blocked, UnderPenalty;
  }

  /** The room as the send finds it: unchanged while its time is not up, and over afterwards. */
  lemma FoundBySend(db: Db, cfg: Config, r: RoomId, t0: Time)
    requires Inv(db) && r in db.rooms
    ensures var rm, d := db.rooms[r], Reconcile(db, cfg, r, t0);
            && r in d.rooms && d.rooms[r].agentA == rm.agentA && d.rooms[r].agentB == rm.agentB
            && (OverAt(rm, t0) <==> d.rooms[r].state == Closed || d.rooms[r].state == Purged)
            && (!OverAt(rm, t0) ==> d == db)
            && (rm.state == Active ==> rm.agentB.Some?)
  {
    hide Closes, Purges;
    assert RoomOk(db.rooms[r], RowsOf(db, r));
    ReconcileAnswers(db, cfg, r, t0);
    SameParticipants(db, cfg, r, t0);
  }

  /**
   * A send is accepted if and only if there is something to say, the room is active and its time not
   * up at either reading of the clock, the turn is the one expected and the sender's, the text is
   * allowed and the bundle current, and neither penalty nor limits stand in the way.
   */
  lemma SendIsAcceptedIff(db: Db, cfg: Config, agent: AgentId, r: RoomId, expectedTurn: int, draft: Draft, t0: Time, t1: Time)
    requires Inv(db)
    ensures SendMessage(db, cfg, agent, r, expectedTurn, draft, t0, t1).1.Accepted? <==>
              && !draft.blank && r in db.rooms
              && TakesTurn(db.rooms[r], agent, expectedTurn, t0, t1)
              && draft.verdict == Allowed && draft.current
              && !UnderPenalty(db, agent, t1) && UnderLimits(db, agent, r, t1)
  {
    SendAnswers(db, cfg, agent, r, expectedTurn, draft, t0, t1);
  }

  /** And each condition that fails gives its error, the first one in this order. */
  lemma SendAnswers(db: Db, cfg: Config, agent: AgentId, r: RoomId, expectedTurn: int, draft: Draft, t0: Time, t1: Time)
    requires Inv(db)
    ensures var (d, result) := SendMessage(db, cfg, agent, r, expectedTurn, draft, t0, t1);
            && (result == Rejected(BadRequest) <==> draft.blank)
            && (result == Rejected(NotFound) <==> !draft.blank && r !in db.rooms)
            && (!draft.blank && r in db.rooms ==>
                  var rm := db.rooms[r];
                  var mine := agent == rm.agentA || rm.agentB == Some(agent);
                  var turn := TakesTurn(rm, agent, expectedTurn, t0, t1);
                  var free := turn && draft.verdict != TooLarge && !UnderPenalty(db, agent, t1);
                  var counted := free && UnderLimits(db, agent, r, t1);
                  && (result == Rejected(Forbidden) <==> !mine)
                  && (result == Rejected(Gone) <==> mine && (OverAt(rm, t0) || (rm.state == Active && t1 > rm.ttlAt)))
                  && (result == Rejected(RoomNotActive) <==> mine && rm.state == Open && t0 <= rm.ttlAt)
                  && (result == Rejected(TurnMismatch) <==> mine && rm.state == Active && t0 <= rm.ttlAt && t1 <= rm.ttlAt && !turn)
                  && (result == Rejected(PayloadTooLarge) <==> turn && draft.verdict == TooLarge)
                  && (result == Rejected(PolicyBlocked) <==> (turn && draft.verdict != TooLarge && !free) || (counted && draft.verdict == Violation))
                  && (result == Rejected(RateLimit) <==> free && !counted)
                  && (result == Rejected(StaleBundleHash) <==> counted && draft.verdict == Allowed && !draft.current)
                  && (result.Accepted? <==> counted && draft.verdict == Allowed && draft.current))
            && (result.Rejected? ==> d == if draft.blank || r !in db.rooms then db else Reconcile(db, cfg, r, t0))
  {
    if !draft.blank && r in db.rooms {
      hide Inv, Reconcile, SendCommit, UnderLimits, UnderPenalty, SentLately, SpokenLately, SendRefusal;
      if TakesTurn(db.rooms[r], agent, expectedTurn, t0, t1) {
        OnItsTurn(db, cfg, agent, r, expectedTurn, draft, t0, t1);
      } else {
        OutOfTurn(db, cfg, agent, r, expectedTurn, draft, t0, t1);
      }
    }
  }

  lemma OnItsTurn(db: Db, cfg: Config, agent: AgentId, r: RoomId, expectedTurn: int, draft: Draft, t0: Time, t1: Time)
    requires Inv(db) && r in db.rooms && TakesTurn(db.rooms[r], agent, expectedTurn, t0, t1)
    ensures var d, refusal := Reconcile(db, cfg, r, t0), SendRefusal(Reconcile(db, cfg, r, t0), agent, r, expectedTurn, draft, t1);
            var free := draft.verdict != TooLarge && !UnderPenalty(db, agent, t1);
            var counted := free && UnderLimits(db, agent, r, t1);
            && d == db && db.rooms[r].agentB.Some?
            && (refusal == Some(PayloadTooLarge) <==> draft.verdict == TooLarge)
            && (refusal == Some(PolicyBlocked) <==> (draft.verdict != TooLarge && !free) || (counted && draft.verdict == Violation))
            && (refusal == Some(RateLimit) <==> free && !counted)
            && (refusal == Some(StaleBundleHash) <==> counted && draft.verdict == Allowed && !draft.current)
            && (refusal == None <==> counted && draft.verdict == Allowed && draft.current)
  {
    FoundBySend(db, cfg, r, t0);
    NextTurnIsFree(db, r);
    hide Inv, Reconcile, UnderLimits, UnderPenalty, SendRefusal, TurnTaken;
    TurnRefuses(db, agent, r, expectedTurn, draft, t1);
  }

  lemma OutOfTurn(db: Db, cfg: Config, agent: AgentId, r: RoomId, expectedTurn: int, draft: Draft, t0: Time, t1: Time)
    requires Inv(db) && r in db.rooms && !TakesTurn(db.rooms[r], agent, expectedTurn, t0, t1)
    ensures var rm, d := db.rooms[r], Reconcile(db, cfg, r, t0);
            var mine := agent == rm.agentA || rm.agentB == Some(agent);
            && r in d.rooms
            && SendRefusal(d, agent, r, expectedTurn, draft, t1)
               == Some(if !mine then Forbidden
                       else if OverAt(rm, t0) || (rm.state == Active && t1 > rm.ttlAt) then Gone
                       else if rm.state == Open then RoomNotActive else TurnMismatch)
  {
    FoundBySend(db, cfg, r, t0);
    hide Inv, Reconcile, SendRefusal;
    RoomRefuses(Reconcile(db, cfg, r, t0), agent, r, expectedTurn, draft, t1);
  }

  /** After the message: the next turn, or the end. */
  ghost predicate Spoken(db: Db, d: Db, agent: AgentId, r: RoomId, at: Time)
    requires r in db.rooms
  {
    var rm := db.rooms[r];
    var next := rm.(turnIndex := rm.turnIndex + 1);
    && d.messages == db.messages + [Message(r, agent, rm.turnIndex, at)]
    && d.viewers == db.viewers && d.listings == db.listings && d.policy == db.policy
    && if rm.turnIndex + 1 == rm.maxTurns then
         && d.rooms == db.rooms[r := next.(state := Closed, closedAt := Some(at))]
         && RevokesExactly(db.tokens, d.tokens, r, Holders(rm), at)
         && Tells(db.deliveries, d.deliveries, r, rm, RoomClosed, at)
       else
         && d.rooms == db.rooms[r := next] && d.tokens == db.tokens
         && exists other :: ItsTurn(next, other) && d.deliveries == db.deliveries + [Delivery(other, r, TurnReady(rm.turnIndex + 1), at + 1800)]
  }

  /** An accepted send says so, and writes the message, the next turn and whom to wake, or on the last turn the end of the room. */
  lemma AcceptedSendsAreSpoken(db: Db, cfg: Config, agent: AgentId, r: RoomId, expectedTurn: int, draft: Draft, t0: Time, t1: Time)
    requires Inv(db) && SendMessage(db, cfg, agent, r, expectedTurn, draft, t0, t1).1.Accepted?
    ensures r in db.rooms
    ensures var (d, result) := SendMessage(db, cfg, agent, r, expectedTurn, draft, t0, t1);
            && result == Accepted(if db.rooms[r].turnIndex + 1 == db.rooms[r].maxTurns then Closed else Active, db.rooms[r].turnIndex + 1)
            && Spoken(db, d, agent, r, t1)
  {
    SendIsAcceptedIff(db, cfg, agent, r, expectedTurn, draft, t0, t1);
    FoundBySend(db, cfg, r, t0);
    assert RoomOk(db.rooms[r], RowsOf(db, r));
    hide Inv, RowsOf, Reconcile, SendRefusal, UnderLimits, UnderPenalty, CloseNow;
    CommitIsSpoken(db, agent, r, t1);
  }

  lemma CommitIsSpoken(db: Db, agent: AgentId, r: RoomId, at: Time)
    requires r in db.rooms && RoomOk(db.rooms[r], RowsOf(db, r)) && db.rooms[r].state == Active
    ensures var d := SendCommit(db, agent, r, at);
            && Spoken(db, d, agent, r, at)
            && d.rooms[r].state == (if db.rooms[r].turnIndex + 1 == db.rooms[r].maxTurns then Closed else Active)
            && d.rooms[r].turnIndex == db.rooms[r].turnIndex + 1
  {
    hide RowsOf, CloseNow, RevokesExactly;
    var rm := db.rooms[r];
    var next := rm.(turnIndex := rm.turnIndex + 1);
    var spoken := db.messages + [Message(r, agent, rm.turnIndex, at)];
    if rm.turnIndex + 1 >= rm.maxTurns {
      ClosingIsExact(db.(rooms := db.rooms[r := next], messages := spoken), r, at);
      assert Holders(next) == Holders(rm);
    } else {
      var other := if next.turnIndex % 2 == 0 then rm.agentA else rm.agentB.value;
      assert ItsTurn(next, other);
    }
  }

  // ---------- listings, joining and viewers ----------

  /** A listing needs a topic and free ids; it gets an open room of its owner, and defaults for limits that are not positive. */
  lemma CreateAnswers(db: Db, agent: AgentId, l: ListingId, r: RoomId, blank: bool, maxTurns: int, ttlSeconds: int, now: Time)
    ensures var (d, error) := CreateListing(db, agent, l, r, blank, maxTurns, ttlSeconds, now);
            && (error == Some(BadRequest) <==> blank)
            && (error == Some(Conflict) <==> !blank && (r in db.rooms || l in db.listings))
            && (error == None <==> !blank && r !in db.rooms && l !in db.listings)
            && if error.Some? then d == db else
                 && d == db.(rooms := d.rooms, listings := d.listings)
                 && d.rooms.Keys == db.rooms.Keys + {r} && (forall q :: q in db.rooms ==> d.rooms[q] == db.rooms[q])
                 && d.listings.Keys == db.listings.Keys + {l} && (forall k :: k in db.listings ==> d.listings[k] == db.listings[k])
                 && var rm, item := d.rooms[r], d.listings[l];
                 && rm.agentA == agent == item.owner && rm.agentB == None && rm.state == Open && rm.turnIndex == 0
                 && rm.closedAt == None && rm.purgedAt == None && !item.connected && item.room == Some(r)
                 && (maxTurns > 0 ==> rm.maxTurns == item.maxTurns == maxTurns) && (maxTurns <= 0 ==> rm.maxTurns == item.maxTurns == 20)
                 && rm.ttlAt == now + item.ttlSeconds && item.ttlSeconds == (if ttlSeconds > 0 then ttlSeconds else 900)
  {}

  /** A listing takes one other agent, once; its room then is active, at its first turn, and the owner is woken. */
  lemma ConnectAnswers(db: Db, agent: AgentId, l: ListingId, newRoom: RoomId, now: Time)
    requires Inv(db)
    ensures var (d, error) := ConnectListing(db, agent, l, newRoom, now);
            && (error == Some(NotFound) <==> l !in db.listings)
            && (error == Some(Forbidden) <==> l in db.listings && db.listings[l].owner == agent)
            && (l in db.listings && db.listings[l].owner != agent ==>
                  var item := db.listings[l];
                  var r := if item.room.Some? then item.room.value else newRoom;
                  && (error == Some(Conflict) <==> item.connected || (if item.room.Some? then r in db.rooms && db.rooms[r].agentB.Some? else r in db.rooms))
                  && (error == None ==> Connects(db, d, agent, l, r, now)))
            && (error.Some? ==> d == db)
  {
    hide RowsOf, RoomOk, RoomStep, Attach, Connects;
    if l in db.listings && db.listings[l].owner != agent {
      var item := db.listings[l];
      assert ListingOk(item, db.rooms);
      if item.room.None? && newRoom !in db.rooms {
        NewRoomConnects(db, agent, l, newRoom, now);
      } else if item.room.Some? && db.rooms[item.room.value].agentB.None? {
        OldRoomConnects(db, agent, l, item.room.value, now);
      }
    }
  }

  /** The second agent is attached, to the listing's room or to one made for the purpose. */
  ghost predicate Connects(db: Db, d: Db, agent: AgentId, l: ListingId, r: RoomId, now: Time)
    requires l in db.listings
  {
    var item := db.listings[l];
    && d == db.(rooms := d.rooms, listings := db.listings[l := item.(connected := true)], deliveries := d.deliveries)
    && d.rooms == db.rooms[r := if r in db.rooms then db.rooms[r].(agentB := Some(agent), state := Active)
                                else Room(item.owner, Some(agent), Active, 0, item.maxTurns, now + item.ttlSeconds, None, None)]
    && d.deliveries == db.deliveries + [Delivery(item.owner, r, TurnReady(0), now + 1800)]
  }

  lemma OldRoomConnects(db: Db, agent: AgentId, l: ListingId, r: RoomId, now: Time)
    requires Inv(db) && l in db.listings && r in db.rooms && db.listings[l].room == Some(r) && db.rooms[r].agentB.None?
    ensures Connects(db, Attach(db, l, r, agent, now), agent, l, r, now)
  {
    hide RowsOf;
    assert RoomOk(db.rooms[r], RowsOf(db, r)) && ListingOk(db.listings[l], db.rooms);
  }

  lemma NewRoomConnects(db: Db, agent: AgentId, l: ListingId, r: RoomId, now: Time)
    requires l in db.listings && r !in db.rooms
    ensures var item := db.listings[l];
            var rm := Room(item.owner, None, Open, 0, item.maxTurns, now + item.ttlSeconds, None, None);
            Connects(db, Attach(db.(rooms := db.rooms[r := rm]), l, r, agent, now), agent, l, r, now)
  {
    var item := db.listings[l];
    var rm := Room(item.owner, None, Open, 0, item.maxTurns, now + item.ttlSeconds, None, None);
    var rm' := rm.(agentB := Some(agent), state := Active);
    assert db.rooms[r := rm][r := rm'] == db.rooms[r := rm'];
  }

  /** Joining is for participants, until the room has ended. */
  lemma JoinAnswers(db: Db, cfg: Config, joined: set<AgentId>, agent: AgentId, r: RoomId, now: Time)
    ensures var error := JoinRoom(db, cfg, joined, agent, r, now).1;
            && (error == Some(NotFound) <==> r !in db.rooms)
            && (r in db.rooms ==>
                  var mine := agent == db.rooms[r].agentA || db.rooms[r].agentB == Some(agent);
                  && (error == Some(Forbidden) <==> !mine)
                  && (error == Some(Gone) <==> mine && OverAt(db.rooms[r], now))
                  && (error == None <==> mine && !OverAt(db.rooms[r], now)))
  {
    if r in db.rooms {
      hide Reconcile, JoinActivates, Closes, Purges;
      ReconcileAnswers(db, cfg, r, now);
      SameParticipants(db, cfg, r, now);
    }
  }

  /** A viewer with a valid code watches from now on, until it leaves; only a purged room has nothing to see. */
  lemma ViewersAnswer(db: Db, cfg: Config, r: RoomId, v: ViewerId, codeValid: bool, now: Time)
    ensures var (d, error) := ViewerJoin(db, cfg, r, v, codeValid, now);
            && (error == Some(NotFound) <==> r !in db.rooms)
            && (r in db.rooms ==>
                  var seen := Reconcile(db, cfg, r, now);
                  && (error == Some(Gone) <==> r in seen.rooms && seen.rooms[r].state == Purged)
                  && (error == Some(Forbidden) <==> r in seen.rooms && seen.rooms[r].state != Purged && !codeValid)
                  && (error == None && v !in db.viewers ==> d == seen.(viewers := seen.viewers[v := Viewer(r, now, false)]) && !Unwatched(d, cfg, r, now + cfg.heartbeat)))
    ensures var (d, error) := ViewerHeartbeat(db, r, v, now);
            && (error == None <==> v in db.viewers && db.viewers[v].room == r && !db.viewers[v].left)
            && (error == Some(Gone) <==> v in db.viewers && db.viewers[v].room == r && db.viewers[v].left)
            && (if error == None then d == db.(viewers := db.viewers[v := Viewer(r, now, false)]) && !Unwatched(d, cfg, r, now + cfg.heartbeat) else d == db)
    ensures var (d, error) := ViewerLeave(db, r, v);
            && (error == None <==> v in db.viewers && db.viewers[v].room == r)
            && (if error == None then d == db.(viewers := db.viewers[v := Viewer(r, db.viewers[v].lastHeartbeat, true)]) else d == db)
  {
    if r in db.rooms {
      ReconcileAnswers(db, cfg, r, now);
      WatchedBy(ViewerJoin(db, cfg, r, v, codeValid, now).0, cfg, r, v, now);
    }
    WatchedBy(ViewerHeartbeat(db, r, v, now).0, cfg, r, v, now);
    hide Reconcile, Closes;
  }

  lemma WatchedBy(db: Db, cfg: Config, r: RoomId, v: ViewerId, now: Time)
    ensures v in db.viewers && db.viewers[v] == Viewer(r, now, false) ==> !Unwatched(db, cfg, r, now + cfg.heartbeat)
  {}
}
