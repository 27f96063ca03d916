/** Whole runs of the room service: any operations, in any order, by any agents. */
module RoomRuns {
  import opened Prelude
  import opened RoomLifecycle
  import opened RoomTables
  import opened RoomOps
  import opened RoomInvariant
  import opened RoomAnswers

  datatype Op =
    | OpCreate(agent: AgentId, listing: ListingId, room: RoomId, topicBlank: bool, maxTurns: int, ttlSeconds: int, t0: Time)
    | OpConnect(agent: AgentId, listing: ListingId, room: RoomId, t0: Time)
    | OpJoin(joined: set<AgentId>, agent: AgentId, room: RoomId, t0: Time)
    | OpSend(agent: AgentId, room: RoomId, expectedTurn: int, draft: Draft, t0: Time, t1: Time)
    | OpClose(agent: AgentId, room: RoomId, t0: Time, t1: Time)
    | OpObserve(room: RoomId, t0: Time)
    | OpToken(agent: AgentId, room: RoomId, hash: TokenHash, t0: Time, t1: Time)
    | OpRecover(agent: AgentId, room: RoomId, hash: TokenHash, t0: Time, t1: Time)
    | OpAuth(session: Option<AgentId>, hash: TokenHash, room: RoomId, inScope: bool, t0: Time)
    | OpViewerJoin(room: RoomId, viewer: ViewerId, codeValid: bool, t0: Time)
    | OpViewerHeartbeat(room: RoomId, viewer: ViewerId, t0: Time)
    | OpViewerLeave(room: RoomId, viewer: ViewerId, t0: Time)

  function Apply(db: Db, cfg: Config, op: Op): Db
  {
    match op
    case OpCreate(a, l, r, blank, turns, ttl, t0) => CreateListing(db, a, l, r, blank, turns, ttl, t0).0
    case OpConnect(a, l, r, t0) => ConnectListing(db, a, l, r, t0).0
    case OpJoin(joined, a, r, t0) => JoinRoom(db, cfg, joined, a, r, t0).0
    case OpSend(a, r, turn, draft, t0, t1) => SendMessage(db, cfg, a, r, turn, draft, t0, t1).0
    case OpClose(a, r, t0, t1) => CloseRoom(db, cfg, a, r, t0, t1).0
    case OpObserve(r, t0) => if r in db.rooms then Reconcile(db, cfg, r, t0) else db
    case OpToken(a, r, h, t0, t1) => CreateAccessToken(db, cfg, a, r, h, t0, t1).0
    case OpRecover(a, r, h, t0, t1) => RecoverRoom(db, cfg, a, r, h, t0, t1).0
    case OpAuth(session, h, r, inScope, t0) => AuthRoomAccess(db, session, h, r, inScope, t0).0
    case OpViewerJoin(r, v, ok, t0) => ViewerJoin(db, cfg, r, v, ok, t0).0
    case OpViewerHeartbeat(r, v, t0) => ViewerHeartbeat(db, r, v, t0).0
    case OpViewerLeave(r, v, _) => ViewerLeave(db, r, v).0
  }

  function Run(db: Db, cfg: Config, ops: seq<Op>): Db
  {
    if ops == [] then db else Apply(Run(db, cfg, ops[..|ops|-1]), cfg, ops[|ops|-1])
  }

  // ---------- one operation ----------

  /** Joining never activates a room: attaching the second agent already has. */
  lemma JoinOnlyReconciles(db: Db, cfg: Config, joined: set<AgentId>, agent: AgentId, r: RoomId, now: Time)
    requires Inv(db) && r in db.rooms
    ensures JoinRoom(db, cfg, joined, agent, r, now).0 == Reconcile(db, cfg, r, now)
  {
    hide Wakes, Said, Live, Notified, Terminal, RevokeParticipants;
    ReconcileKeeps(db, cfg, r, now);
    var d := Reconcile(db, cfg, r, now);
    assert RoomOk(d.rooms[r], RowsOf(d, r));
  }

  lemma ViewersDoNotMatter(db: Db, d: Db, v: map<ViewerId, Viewer>)
    requires Inv(d) && Steps(db, d)
    ensures Inv(d.(viewers := v)) && Steps(db, d.(viewers := v))
  {
    hide Wakes, Said, Live, Notified;
    assert forall r :: RowsOf(d.(viewers := v), r) == RowsOf(d, r);
    UnchangedKeeps(d, d.(viewers := v));
  }

  lemma StayKeeps(db: Db)
    requires Inv(db)
    ensures Steps(db, db)
  {
    UnchangedKeeps(db, db);
  }

  lemma ReconcilePurges(db: Db, cfg: Config, r: RoomId, now: Time)
    requires r in db.rooms
    ensures Reconcile(db, cfg, r, now).rooms.Keys == db.rooms.Keys
    ensures forall q :: q in db.rooms && q != r ==> Reconcile(db, cfg, r, now).rooms[q] == db.rooms[q]
    ensures db.rooms[r].state != Purged && Reconcile(db, cfg, r, now).rooms[r].state == Purged ==>
              && db.rooms[r].state == Closed
              && var age := if db.rooms[r].closedAt.Some? then now - db.rooms[r].closedAt.value else 0;
                 age >= cfg.cap || (age >= cfg.grace && Unwatched(db, cfg, r, now))
  {
    ReconcileAnswers(db, cfg, r, now);
    hide Unwatched, HasActiveViewer, RevokeParticipants, Terminal, WithoutRoom, Closes, Purges, PurgeDue;
  }

  lemma CreateOpKeeps(db: Db, agent: AgentId, l: ListingId, r: RoomId, blank: bool, turns: int, ttl: int, now: Time)
    requires Inv(db)
    ensures var db' := CreateListing(db, agent, l, r, blank, turns, ttl, now).0; Inv(db') && Steps(db, db')
  {
    hide Wakes, Said, Live, Notified;
    StayKeeps(db);
    var db' := CreateListing(db, agent, l, r, blank, turns, ttl, now).0;
    if !blank && r !in db.rooms && l !in db.listings {
      var mid := db.(rooms := db.rooms[r := db'.rooms[r]]);
      CreateKeeps(db, r, db'.rooms[r]);
      ListingAdded(db, mid, db', l);
    }
  }

  lemma ConnectOpKeeps(db: Db, agent: AgentId, l: ListingId, newRoom: RoomId, now: Time)
    requires Inv(db)
    ensures var db' := ConnectListing(db, agent, l, newRoom, now).0; Inv(db') && Steps(db, db')
  {
    hide Wakes, Said, Live, Notified, RoomOk, RoomStep, RowsOf, TurnReadyNotice;
    StayKeeps(db);
    if l in db.listings && ConnectListing(db, agent, l, newRoom, now).1.None? {
      var item := db.listings[l];
      assert ListingOk(item, db.rooms);
      if item.room.None? {
        LegacyConnectKeeps(db, agent, l, newRoom, now);
      } else {
        AttachKeeps(db, l, item.room.value, agent, now);
      }
    }
  }

  lemma LegacyConnectKeeps(db: Db, agent: AgentId, l: ListingId, r: RoomId, now: Time)
    requires Inv(db) && l in db.listings && r !in db.rooms && db.listings[l].owner != agent
    ensures var item := db.listings[l];
            var rm := Room(item.owner, None, Open, 0, item.maxTurns, now + item.ttlSeconds, None, None);
            var db' := Attach(db.(rooms := db.rooms[r := rm]), l, r, agent, now);
            Inv(db') && Steps(db, db')
  {
    hide RowsOf, RoomOk, RoomStep, TurnReadyNotice, Steps;
    var item := db.listings[l];
    assert ListingOk(item, db.rooms);
    var rm := Room(item.owner, None, Open, 0, item.maxTurns, now + item.ttlSeconds, None, None);
    var mid := db.(rooms := db.rooms[r := rm]);
    CreateKeeps(db, r, rm);
    AttachKeeps(mid, l, r, agent, now);
    StepsFromCreate(db, mid, Attach(mid, l, r, agent, now), r);
  }

  lemma ListingAdded(db: Db, mid: Db, db': Db, l: ListingId)
    requires Inv(mid) && Steps(db, mid) && db' == mid.(listings := db'.listings)
    requires l in db'.listings && ListingOk(db'.listings[l], mid.rooms)
    requires forall k :: k in db'.listings && k != l ==> k in mid.listings && mid.listings[k] == db'.listings[k]
    ensures Inv(db') && Steps(db, db')
  {
    hide Wakes, Said, Live, Notified;
    assert forall r :: RowsOf(db', r) == RowsOf(mid, r);
    forall k | k in db'.listings ensures ListingOk(db'.listings[k], db'.rooms) {
      assert k != l ==> ListingOk(mid.listings[k], mid.rooms);
    }
  }

  lemma NewRoomsHaveNoRows(db: Db, r: RoomId)
    requires Inv(db) && r !in db.rooms
    ensures RowsOf(db, r) == NO_ROWS
  {
    hide RoomOk, ListingsOk, RowsOf;
  }

  lemma RoomsDoNotMatterToRows(db: Db, mid: Db)
    requires mid == db.(rooms := mid.rooms)
    ensures forall q :: RowsOf(mid, q) == RowsOf(db, q)
  {
    hide Wakes, Said, Live, Notified;
  }

  /** A step from a room without rows to an active one is a birth. */
  lemma StepsFromNothingAreBirths(rm: Room, rm': Room, rows': Rows)
    requires RoomStep(rm, NO_ROWS, rm', rows') && rm'.state == Active
    ensures Born(rm', rows')
  {}

  /** Creating a room changes no existing one, so a step after it is a step of the whole. */
  lemma StepsFromCreate(db: Db, mid: Db, db': Db, r: RoomId)
    requires Inv(db) && mid == db.(rooms := mid.rooms) && r !in db.rooms && mid.rooms.Keys == db.rooms.Keys + {r}
    requires forall q :: q in db.rooms ==> mid.rooms[q] == db.rooms[q]
    requires Steps(mid, db') && r in db'.rooms && db'.rooms[r].state == Active
    ensures Steps(db, db')
  {
    hide RowsOf, Inv, RoomStep, Born;
    NewRoomsHaveNoRows(db, r);
    RoomsDoNotMatterToRows(db, mid);
    StepsFromNothingAreBirths(mid.rooms[r], db'.rooms[r], RowsOf(db', r));
    forall q | q in db.rooms
      ensures q in db'.rooms && RoomStep(db.rooms[q], RowsOf(db, q), db'.rooms[q], RowsOf(db', q))
    {
      assert RoomStep(mid.rooms[q], RowsOf(mid, q), db'.rooms[q], RowsOf(db', q));
    }
  }

  lemma SendOpKeeps(db: Db, cfg: Config, agent: AgentId, r: RoomId, turn: int, draft: Draft, t0: Time, t1: Time)
    requires Inv(db)
    ensures var db' := SendMessage(db, cfg, agent, r, turn, draft, t0, t1).0; Inv(db') && Steps(db, db')
  {
    hide Inv, Steps, Reconcile, SendCommit, CountBySender, CountByRoom, TurnTaken, Blocked;
    StayKeeps(db);
    if !draft.blank && r in db.rooms {
      ReconcileKeeps(db, cfg, r, t0);
      var d := Reconcile(db, cfg, r, t0);
      if SendRefusal(d, agent, r, turn, draft, t1).None? {
        assert d == db;
        SendKeeps(db, agent, r, turn, draft, t1);
      }
    }
  }

  lemma TokenOpsKeep(db: Db, cfg: Config, op: Op)
    requires Inv(db) && (op.OpToken? || op.OpRecover?)
    ensures Inv(Apply(db, cfg, op)) && Steps(db, Apply(db, cfg, op))
  {
    hide Inv, Steps, Reconcile, Issue;
    StayKeeps(db);
    if op.room in db.rooms {
      ReconcileKeeps(db, cfg, op.room, op.t0);
      var rm := Reconcile(db, cfg, op.room, op.t0).rooms[op.room];
      if rm.Participant(op.agent) && (rm.state == Open || rm.state == Active) {
        IssueKeeps(db, op.agent, op.room, op.hash, op.t1);
      }
    }
  }

  lemma CloseOpKeeps(db: Db, cfg: Config, agent: AgentId, r: RoomId, t0: Time, t1: Time)
    requires Inv(db)
    ensures var db' := CloseRoom(db, cfg, agent, r, t0, t1).0; Inv(db') && Steps(db, db')
  {
    hide Inv, Steps, Reconcile, CloseNow;
    StayKeeps(db);
    if r in db.rooms {
      ReconcileKeeps(db, cfg, r, t0);
      var state := Reconcile(db, cfg, r, t0).rooms[r].state;
      if state == Open || state == Active {
        CloseKeeps(db, r, t1);
      }
    }
  }

  lemma OtherOpsKeep(db: Db, cfg: Config, op: Op)
    requires Inv(db)
    requires op.OpJoin? || op.OpObserve? || op.OpAuth? || op.OpViewerJoin? || op.OpViewerHeartbeat? || op.OpViewerLeave?
    ensures Inv(Apply(db, cfg, op)) && Steps(db, Apply(db, cfg, op))
  {
    hide Inv, Steps, Reconcile, Touch, JoinRoom;
    StayKeeps(db);
    if op.OpAuth? {
      TouchKeeps(db, op.hash, op.t0 + TOKEN_TTL);
    } else if op.OpViewerHeartbeat? || op.OpViewerLeave? {
      ViewersDoNotMatter(db, db, Apply(db, cfg, op).viewers);
    } else if op.room in db.rooms {
      ReconcileKeeps(db, cfg, op.room, op.t0);
      if op.OpJoin? {
        JoinOnlyReconciles(db, cfg, op.joined, op.agent, op.room, op.t0);
      } else if op.OpViewerJoin? {
        ViewersDoNotMatter(db, Reconcile(db, cfg, op.room, op.t0), Apply(db, cfg, op).viewers);
      }
    } else if op.OpJoin? {
      JoinNeedsARoom(db, cfg, op.joined, op.agent, op.room, op.t0);
    }
  }

  lemma JoinNeedsARoom(db: Db, cfg: Config, joined: set<AgentId>, agent: AgentId, r: RoomId, now: Time)
    requires r !in db.rooms
    ensures JoinRoom(db, cfg, joined, agent, r, now) == (db, Some(NotFound))
  {}

  lemma ApplyKeeps(db: Db, cfg: Config, op: Op)
    requires Inv(db)
    ensures Inv(Apply(db, cfg, op)) && Steps(db, Apply(db, cfg, op))
  {
    hide Wakes, Said, Live, Notified, CreateListing, ConnectListing, SendMessage, CloseRoom;
    match op
    case OpCreate(a, l, r, blank, turns, ttl, t0) => CreateOpKeeps(db, a, l, r, blank, turns, ttl, t0);
    case OpConnect(a, l, r, t0) => ConnectOpKeeps(db, a, l, r, t0);
    case OpSend(a, r, turn, draft, t0, t1) => SendOpKeeps(db, cfg, a, r, turn, draft, t0, t1);
    case OpClose(a, r, t0, t1) => CloseOpKeeps(db, cfg, a, r, t0, t1);
    case OpToken(_, _, _, _, _) => TokenOpsKeep(db, cfg, op);
    case OpRecover(_, _, _, _, _) => TokenOpsKeep(db, cfg, op);
    case _ => OtherOpsKeep(db, cfg, op);
  }

  // ---------- when a room may be purged ----------

  predicate ReadsRoom(op: Op)
  {
    !(op.OpCreate? || op.OpConnect? || op.OpAuth? || op.OpViewerHeartbeat? || op.OpViewerLeave?)
  }

  lemma ListingOpsDoNotPurge(db: Db, cfg: Config, op: Op, r: RoomId)
    requires !ReadsRoom(op) && r in db.rooms && r in Apply(db, cfg, op).rooms
    ensures Apply(db, cfg, op).rooms[r].state != Purged || db.rooms[r].state == Purged
  {
    hide Touch, FindToken, TurnReadyNotice;
  }

  lemma OnlyReconcilePurges(db: Db, cfg: Config, op: Op, r: RoomId)
    requires ReadsRoom(op) && r in db.rooms && r in Apply(db, cfg, op).rooms && op.room in db.rooms
    requires db.rooms[r].state != Purged && Apply(db, cfg, op).rooms[r].state == Purged
    ensures r in Reconcile(db, cfg, op.room, op.t0).rooms
    ensures Reconcile(db, cfg, op.room, op.t0).rooms[r].state == Purged
  {
    hide Reconcile, SendRefusal, TurnReadyNotice, Terminal, RevokeParticipants, JoinActivates, PurgeDue;
    ReconcilePurges(db, cfg, op.room, op.t0);
  }

  /** A room is purged only out of CLOSED, and only when its retention has run out, or its grace has and nobody watches it. */
  lemma PurgeOnlyWhenDue(db: Db, cfg: Config, op: Op, r: RoomId)
    requires Inv(db) && r in db.rooms && r in Apply(db, cfg, op).rooms
    requires db.rooms[r].state != Purged && Apply(db, cfg, op).rooms[r].state == Purged
    ensures db.rooms[r].state == Closed && db.rooms[r].closedAt.Some?
    ensures var age := op.t0 - db.rooms[r].closedAt.value;
            age >= cfg.cap || (age >= cfg.grace && Unwatched(db, cfg, r, op.t0))
    ensures Said(Apply(db, cfg, op).messages, r) == []
  {
    hide Wakes, Said, Live, Notified, Apply, Reconcile, Unwatched;
    ApplyKeeps(db, cfg, op);
    assert RoomOk(db.rooms[r], RowsOf(db, r));
    assert RoomStep(db.rooms[r], RowsOf(db, r), Apply(db, cfg, op).rooms[r], RowsOf(Apply(db, cfg, op), r));
    if !ReadsRoom(op) {
      ListingOpsDoNotPurge(db, cfg, op, r);
    } else if op.room !in db.rooms {
      MissingRoomChangesNothing(db, cfg, op);
    } else {
      OnlyReconcilePurges(db, cfg, op, r);
      ReconcilePurges(db, cfg, op.room, op.t0);
    }
  }

  lemma MissingRoomChangesNothing(db: Db, cfg: Config, op: Op)
    requires ReadsRoom(op) && op.room !in db.rooms
    ensures Apply(db, cfg, op) == db
  {}

  // ---------- every run ----------

  lemma {:induction false} RunKeepsInv(db: Db, cfg: Config, ops: seq<Op>)
    requires Inv(db)
    ensures Inv(Run(db, cfg, ops))
  {
    if ops != [] {
      RunKeepsInv(db, cfg, ops[..|ops|-1]);
      ApplyKeeps(Run(db, cfg, ops[..|ops|-1]), cfg, ops[|ops|-1]);
    }
  }

  /** A deployment starts without rooms; listings from before owner-first rooms may be waiting. */
  lemma FreshDatabaseOk(db: Db)
    requires db.rooms == map[] && db.messages == [] && db.deliveries == [] && db.tokens == []
    requires forall l :: l in db.listings ==> db.listings[l].room.None? && db.listings[l].maxTurns >= 1
    ensures Inv(db)
  {}

  /** Exactly one wake per turn, to A on even turns and B on odd ones, in order. */
  lemma OneWakePerTurn(db: Db, cfg: Config, ops: seq<Op>, r: RoomId)
    requires Inv(db) && r in Run(db, cfg, ops).rooms
    ensures var end := Run(db, cfg, ops);
            var rm, wakes := end.rooms[r], Wakes(end.deliveries, r);
            && (rm.agentB.None? ==> wakes == [])
            && (rm.agentB.Some? ==>
                  && |wakes| == Min(rm.turnIndex, rm.maxTurns - 1) + 1
                  && forall k :: 0 <= k < |wakes| ==> wakes[k] == Wake(k, rm.Actor(k)))
            && (rm.state == Active ==>
                  |wakes| > 0 && Some(wakes[|wakes|-1].agent) == rm.NextActor() && wakes[|wakes|-1].turn == rm.turnIndex)
  {
    hide Wakes, Said, Live, Notified, Run;
    RunKeepsInv(db, cfg, ops);
    var end := Run(db, cfg, ops);
    assert RoomOk(end.rooms[r], RowsOf(end, r));
  }

  /** An unpurged room holds exactly turns 0 .. turnIndex-1, alternating; a purged one holds nothing. */
  lemma TranscriptIsTheTurns(db: Db, cfg: Config, ops: seq<Op>, r: RoomId)
    requires Inv(db) && r in Run(db, cfg, ops).rooms
    ensures var end := Run(db, cfg, ops);
            var rm, said := end.rooms[r], Said(end.messages, r);
            && (rm.state == Purged || rm.agentB.None? ==> said == [])
            && (rm.state != Purged && rm.agentB.Some? ==>
                  |said| == rm.turnIndex && forall k :: 0 <= k < |said| ==> said[k] == Wake(k, rm.Actor(k)))
  {
    hide Wakes, Said, Live, Notified, Run;
    RunKeepsInv(db, cfg, ops);
    var end := Run(db, cfg, ops);
    assert RoomOk(end.rooms[r], RowsOf(end, r));
  }

  /**
   * What a recovery listing relies on: every wake ever sent has been answered in the transcript, or
   * belongs to a room that ended and said so to the agent, or is the very turn for which the room,
   * being active, is listed as actionable for that agent.
   */
  lemma WakesAreAnsweredEndedOrActionable(db: Db, cfg: Config, ops: seq<Op>, r: RoomId, k: nat)
    requires Inv(db) && r in Run(db, cfg, ops).rooms && k < |Wakes(Run(db, cfg, ops).deliveries, r)|
    ensures var end := Run(db, cfg, ops);
            var rm, wake := end.rooms[r], Wakes(end.deliveries, r)[k];
            || (k < |Said(end.messages, r)| && Said(end.messages, r)[k] == wake)
            || ((rm.state == Closed || rm.state == Purged) && Notified(end.deliveries, r, RoomClosed)[wake.agent] >= 1)
            || (rm.state == Active && wake.turn == rm.turnIndex && rm.NextActor() == Some(wake.agent))
  {
    hide Wakes, Said, Live, Notified, Run;
    RunKeepsInv(db, cfg, ops);
    var end := Run(db, cfg, ops);
    assert RoomOk(end.rooms[r], RowsOf(end, r));
    assert RowsOf(end, r).wakes[k] == Wake(k, end.rooms[r].Actor(k));
  }

  lemma ActiveRoomsAreWellFormed(db: Db, cfg: Config, ops: seq<Op>, r: RoomId)
    requires Inv(db) && r in Run(db, cfg, ops).rooms
    ensures var rm := Run(db, cfg, ops).rooms[r];
            && (rm.state == Active ==> rm.agentB.Some? && rm.agentB.value != rm.agentA && rm.turnIndex < rm.maxTurns)
            && (rm.state == Open ==> rm.agentB.None?)
  {
    hide Wakes, Said, Live, Notified, Run;
    RunKeepsInv(db, cfg, ops);
    assert RoomOk(Run(db, cfg, ops).rooms[r], RowsOf(Run(db, cfg, ops), r));
  }

  /** At most one unrevoked token per holder, only participants hold one, terminal rooms have none. */
  lemma TokensStayExclusive(db: Db, cfg: Config, ops: seq<Op>, r: RoomId, x: AgentId)
    requires Inv(db)
    ensures var end := Run(db, cfg, ops);
            && Live(end.tokens, r)[x] <= 1
            && (Live(end.tokens, r)[x] == 1 ==>
                  r in end.rooms && end.rooms[r].Participant(x) && (end.rooms[r].state == Open || end.rooms[r].state == Active))
  {
    hide Wakes, Said, Live, Notified, Run;
    RunKeepsInv(db, cfg, ops);
    var end := Run(db, cfg, ops);
    if r in end.rooms {
      assert RoomOk(end.rooms[r], RowsOf(end, r));
    } else {
      assert RowsOf(end, r) == NO_ROWS;
    }
  }

  /** Two unrevoked token rows of one room and holder are one row. */
  lemma {:induction false} LiveCountsRows(ts: seq<Token>, r: RoomId, x: AgentId, i: nat, j: nat)
    requires i < |ts| && j < |ts| && Live(ts, r)[x] <= 1
    requires ts[i].room == r && ts[i].agent == x && ts[i].revokedAt.None?
    requires ts[j].room == r && ts[j].agent == x && ts[j].revokedAt.None?
    ensures i == j
  {
    var before := ts[..|ts|-1];
    if i < |before| && j < |before| {
      LiveCountsRows(before, r, x, i, j);
    } else if i != j {
      LiveRowCounts(before, r, x, if i < j then i else j);
    }
  }

  lemma {:induction false} LiveRowCounts(ts: seq<Token>, r: RoomId, x: AgentId, i: nat)
    requires i < |ts| && ts[i].room == r && ts[i].agent == x && ts[i].revokedAt.None?
    ensures Live(ts, r)[x] >= 1
  {
    if i < |ts| - 1 {
      LiveRowCounts(ts[..|ts|-1], r, x, i);
    }
  }

  /** In shared mode the violation is recorded in a transaction that then fails, so no agent is ever blocked. */
  lemma {:induction false} PolicyTableNeverChanges(db: Db, cfg: Config, ops: seq<Op>)
    requires Inv(db)
    ensures Run(db, cfg, ops).policy == db.policy
  {
    if ops != [] {
      PolicyTableNeverChanges(db, cfg, ops[..|ops|-1]);
      RunKeepsInv(db, cfg, ops[..|ops|-1]);
      ApplyKeeps(Run(db, cfg, ops[..|ops|-1]), cfg, ops[|ops|-1]);
    }
  }

  // ---------- histories of one room ----------

  /** The states a room goes through in a run, from a start where it exists. */
  function History(db: Db, cfg: Config, ops: seq<Op>, r: RoomId): (h: seq<RoomState>)
    ensures |h| == |ops| + 1
  {
    var now := Run(db, cfg, ops);
    var state := [if r in now.rooms then now.rooms[r].state else Open];
    if ops == [] then state else History(db, cfg, ops[..|ops|-1], r) + state
  }

  lemma {:induction false} RoomsPersist(db: Db, cfg: Config, ops: seq<Op>, r: RoomId)
    requires Inv(db) && r in db.rooms
    ensures Inv(Run(db, cfg, ops)) && r in Run(db, cfg, ops).rooms
    ensures var rm, rm' := db.rooms[r], Run(db, cfg, ops).rooms[r];
            rm'.agentA == rm.agentA && rm'.maxTurns == rm.maxTurns && rm.turnIndex <= rm'.turnIndex
            && (rm.agentB.Some? ==> rm'.agentB == rm.agentB)
  {
    hide Wakes, Said, Live, Notified;
    if ops != [] {
      RoomsPersist(db, cfg, ops[..|ops|-1], r);
      var mid := Run(db, cfg, ops[..|ops|-1]);
      ApplyKeeps(mid, cfg, ops[|ops|-1]);
      assert RoomStep(mid.rooms[r], RowsOf(mid, r), Run(db, cfg, ops).rooms[r], RowsOf(Run(db, cfg, ops), r));
    }
  }

  /** Once the second agent is attached, every later step respects the state machine. */
  lemma {:induction false} ConnectedRoomsFollowTheStateMachine(db: Db, cfg: Config, ops: seq<Op>, r: RoomId)
    requires Inv(db) && r in db.rooms && db.rooms[r].agentB.Some?
    ensures Legal(History(db, cfg, ops, r))
  {
    hide RowsOf, RoomOk, Apply;
    if ops != [] {
      var before := ops[..|ops|-1];
      ConnectedRoomsFollowTheStateMachine(db, cfg, before, r);
      RoomsPersist(db, cfg, before, r);
      var mid, end := Run(db, cfg, before), Run(db, cfg, ops);
      ApplyKeeps(mid, cfg, ops[|ops|-1]);
      assert RoomStep(mid.rooms[r], RowsOf(mid, r), end.rooms[r], RowsOf(end, r));
      var h, h0 := History(db, cfg, ops, r), History(db, cfg, before, r);
      assert h == h0 + [end.rooms[r].state];
      assert h0[|h0|-1] == mid.rooms[r].state;
    }
  }

  /** Without a second agent a room can come back: closed by its owner, then connected. */
  lemma UnconnectedRoomsCanReopen(cfg: Config)
    ensures exists ops :: var start := Db(map[], map[], [], [], [], map[], map[]);
              && |ops| == 3 && Inv(start)
              && Run(start, cfg, ops[..2]).rooms.Keys == {7} && Run(start, cfg, ops[..2]).rooms[7].state == Closed
              && Run(start, cfg, ops).rooms.Keys == {7} && Run(start, cfg, ops).rooms[7].state == Active
  {
    var start := Db(map[], map[], [], [], [], map[], map[]);
    var ops := [OpCreate(1, 5, 7, false, 20, 900, 0), OpClose(1, 7, 1, 1), OpConnect(2, 5, 8, 2)];
    assert ops[..1] == [ops[0]] && ops[..2] == [ops[0], ops[1]] && ops[..3] == ops;
    assert ops[..2][..1] == ops[..1] && ops[..1][..0] == [];
    var s1 := Apply(start, cfg, ops[0]);
    assert Run(start, cfg, ops[..1]) == s1;
    assert s1.rooms[7] == Room(1, None, Open, 0, 20, 900, None, None);
    var s2 := Apply(s1, cfg, ops[1]);
    assert Run(start, cfg, ops[..2]) == s2;
    var s3 := Apply(s2, cfg, ops[2]);
    assert Run(start, cfg, ops) == s3;
  }

  /** No step attaches a second agent to a room that is already closed or purged. */
  predicate AttachedWhileOpen(db: Db, cfg: Config, ops: seq<Op>, r: RoomId)
  {
    ops == [] ||
    (var before, end := Run(db, cfg, ops[..|ops|-1]), Run(db, cfg, ops);
     && AttachedWhileOpen(db, cfg, ops[..|ops|-1], r)
     && (r in before.rooms && r in end.rooms && before.rooms[r].agentB != end.rooms[r].agentB ==> before.rooms[r].state == Open))
  }

  /** Connecting does not check the state; that is the only way any room, connected or not, can leave the state machine. */
  lemma {:induction false} RoomsFollowTheStateMachineIff(db: Db, cfg: Config, ops: seq<Op>, r: RoomId)
    requires Inv(db) && r in db.rooms
    ensures Legal(History(db, cfg, ops, r)) <==> AttachedWhileOpen(db, cfg, ops, r)
  {
    hide RowsOf, RoomOk, Apply;
    if ops != [] {
      var before := ops[..|ops|-1];
      RoomsFollowTheStateMachineIff(db, cfg, before, r);
      RoomsPersist(db, cfg, before, r);
      var mid, end := Run(db, cfg, before), Run(db, cfg, ops);
      ApplyKeeps(mid, cfg, ops[|ops|-1]);
      AttachedRoomsAreNotOpen(mid, r);
      assert RoomStep(mid.rooms[r], RowsOf(mid, r), end.rooms[r], RowsOf(end, r));
      var h, h0 := History(db, cfg, ops, r), History(db, cfg, before, r);
      assert h == h0 + [end.rooms[r].state];
      assert h0[|h0|-1] == mid.rooms[r].state;
      LegalOneMore(h0, end.rooms[r].state);
    }
  }

  lemma AttachedRoomsAreNotOpen(db: Db, r: RoomId)
    requires Inv(db) && r in db.rooms
    ensures db.rooms[r].agentB.None? ==> db.rooms[r].state != Active
  {
    hide RowsOf;
    assert RoomOk(db.rooms[r], RowsOf(db, r));
  }

  lemma LegalOneMore(h: seq<RoomState>, s: RoomState)
    requires h != []
    ensures Legal(h + [s]) <==> Legal(h) && (s == h[|h|-1] || h[|h|-1].CanTransitionTo(s))
  {
    var h' := h + [s];
    if Legal(h') {
      assert h'[|h|-1] == h[|h|-1] && h'[|h|] == s;
      assert forall i :: 0 <= i < |h| ==> h'[i] == h[i];
    }
  }

  /** The transitions of a room into `s` in a run, counting those that leave `x` a participant. */
  function TransitionsSeenBy(db: Db, cfg: Config, ops: seq<Op>, r: RoomId, x: AgentId, s: RoomState): nat
  {
    if ops == [] then 0
    else
      var before, end := Run(db, cfg, ops[..|ops|-1]), Run(db, cfg, ops);
      TransitionsSeenBy(db, cfg, ops[..|ops|-1], r, x, s) +
      if r in before.rooms && r in end.rooms && Enters(before.rooms[r], end.rooms[r], s) && end.rooms[r].Participant(x)
      then 1 else 0
  }

  lemma EachTakesPartOnce(rm: Room, rows: Rows, x: AgentId)
    requires RoomOk(rm, rows)
    ensures rm.Participants()[x] == if rm.Participant(x) then 1 else 0
  {}

  /**
   * Terminal notices are conserved: what an agent is told about a room equals, one for one, the
   * transitions made while it took part, whatever caused them; nothing else adds a notice.
   */
  lemma {:induction false} TerminalNoticesMatchTransitions(db: Db, cfg: Config, ops: seq<Op>, r: RoomId, x: AgentId)
    requires Inv(db)
    ensures var end := Run(db, cfg, ops);
            && Notified(end.deliveries, r, RoomClosed)[x]
               == Notified(db.deliveries, r, RoomClosed)[x] + TransitionsSeenBy(db, cfg, ops, r, x, Closed)
            && Notified(end.deliveries, r, RoomPurged)[x]
               == Notified(db.deliveries, r, RoomPurged)[x] + TransitionsSeenBy(db, cfg, ops, r, x, Purged)
  {
    hide Wakes, Said, Live, Notified, Apply, RoomOk, ListingsOk;
    if ops != [] {
      var before := ops[..|ops|-1];
      TerminalNoticesMatchTransitions(db, cfg, before, r, x);
      RunKeepsInv(db, cfg, before);
      var mid, end := Run(db, cfg, before), Run(db, cfg, ops);
      ApplyKeeps(mid, cfg, ops[|ops|-1]);
      if r in mid.rooms {
        assert RoomStep(mid.rooms[r], RowsOf(mid, r), end.rooms[r], RowsOf(end, r));
        assert RoomOk(end.rooms[r], RowsOf(end, r));
        EachTakesPartOnce(end.rooms[r], RowsOf(end, r), x);
      } else {
        assert RowsOf(mid, r) == NO_ROWS;
        assert r in end.rooms ==> Born(end.rooms[r], RowsOf(end, r));
        RunKeepsInv(db, cfg, ops);
        assert r !in end.rooms ==> RowsOf(end, r) == NO_ROWS;
      }
    }
  }

  /** Whoever takes part in an active room is told after that, if the room ends: a notice follows every wake of a room that ended. */
  lemma {:induction false} EndingsAreToldAfterTheWakes(db: Db, cfg: Config, ops: seq<Op>, r: RoomId, x: AgentId)
    requires Inv(db) && r in db.rooms && db.rooms[r].state == Active && db.rooms[r].Participant(x)
    ensures r in Run(db, cfg, ops).rooms && Run(db, cfg, ops).rooms[r].state != Open
    ensures var end := Run(db, cfg, ops);
            if end.rooms[r].state == Active then Notified(end.deliveries, r, RoomClosed)[x] == Notified(db.deliveries, r, RoomClosed)[x]
            else Notified(end.deliveries, r, RoomClosed)[x] == Notified(db.deliveries, r, RoomClosed)[x] + 1
  {
    hide Notified, Apply, RowsOf, RoomOk;
    RoomsPersist(db, cfg, ops, r);
    if ops != [] {
      var before := ops[..|ops|-1];
      EndingsAreToldAfterTheWakes(db, cfg, before, r, x);
      RoomsPersist(db, cfg, before, r);
      var mid, end := Run(db, cfg, before), Run(db, cfg, ops);
      ApplyKeeps(mid, cfg, ops[|ops|-1]);
      AttachedRoomsAreNotOpen(db, r);
      assert RoomStep(mid.rooms[r], RowsOf(mid, r), end.rooms[r], RowsOf(end, r));
      RoomIsOk(end, r);
      EachTakesPartOnce(end.rooms[r], RowsOf(end, r), x);
      NoticesAreRows(mid, r);
      NoticesAreRows(end, r);
      assert mid.rooms[r].agentB.Some? && end.rooms[r].Participant(x);
      OneNotice(mid.rooms[r], RowsOf(mid, r), end.rooms[r], RowsOf(end, r), x);
    }
  }

  lemma OneNotice(rm: Room, rows: Rows, rm': Room, rows': Rows, x: AgentId)
    requires RoomStep(rm, rows, rm', rows') && rm.agentB.Some? && rm'.Participant(x) && rm'.Participants()[x] == 1 && rm.state != Open
    ensures rows'.closedTo[x] == rows.closedTo[x] + if rm.state == Active && rm'.state != Active then 1 else 0
    ensures rm.state != Active ==> rm'.state != Active
    ensures rm'.state != Open
  {}

  lemma RoomIsOk(db: Db, r: RoomId)
    requires Inv(db) && r in db.rooms
    ensures RoomOk(db.rooms[r], RowsOf(db, r))
  {
    hide RoomOk;
  }

  lemma NoticesAreRows(db: Db, r: RoomId)
    ensures RowsOf(db, r).closedTo == Notified(db.deliveries, r, RoomClosed)
  {}

  /** A connected room is closed at most once and purged at most once, so each agent hears of each at most once. */
  lemma ConnectedRoomsNotifyOnce(db: Db, cfg: Config, ops: seq<Op>, r: RoomId, x: AgentId)
    requires Inv(db) && r in db.rooms && db.rooms[r].agentB.Some?
    ensures TransitionsSeenBy(db, cfg, ops, r, x, Closed) <= 1 && TransitionsSeenBy(db, cfg, ops, r, x, Purged) <= 1
  {
    ConnectedRoomsFollowTheStateMachine(db, cfg, ops, r);
    LegalEntersOnce(History(db, cfg, ops, r), Closed);
    LegalEntersOnce(History(db, cfg, ops, r), Purged);
    SeenAreEntries(db, cfg, ops, r, x, Closed);
    SeenAreEntries(db, cfg, ops, r, x, Purged);
  }

  lemma {:induction false} SeenAreEntries(db: Db, cfg: Config, ops: seq<Op>, r: RoomId, x: AgentId, s: RoomState)
    requires Inv(db) && r in db.rooms
    ensures TransitionsSeenBy(db, cfg, ops, r, x, s) <= Entries(History(db, cfg, ops, r), s)
  {
    hide Inv, Apply;
    if ops != [] {
      var before := ops[..|ops|-1];
      SeenAreEntries(db, cfg, before, r, x, s);
      RoomsPersist(db, cfg, before, r);
      RoomsPersist(db, cfg, ops, r);
      var h, h0 := History(db, cfg, ops, r), History(db, cfg, before, r);
      assert h[..|h|-1] == h0;
      assert h0[|h0|-1] == Run(db, cfg, before).rooms[r].state;
    }
  }
}
