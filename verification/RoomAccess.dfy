/** Who gets in: room tokens from the moment they are issued to the moment they are revoked or run out. */
module RoomAccess {
  import opened Prelude
  import opened RoomLifecycle
  import opened RoomTables
  import opened RoomOps
  import opened RoomInvariant
  import opened RoomAnswers
  import opened RoomRuns

  /** The UNIQUE constraint on token hashes. */
  ghost predicate UniqueHashes(ts: seq<Token>)
  {
    forall i, j :: 0 <= i < j < |ts| ==> ts[i].hash != ts[j].hash
  }

  /** Row i is an unrevoked, unexpired token of the room with this hash. */
  ghost predicate Opens(ts: seq<Token>, i: int, h: TokenHash, r: RoomId, now: Time)
  {
    0 <= i < |ts| && ts[i].hash == h && ts[i].room == r && ts[i].revokedAt == None && ts[i].expiresAt > now
  }

  // ---------- one request ----------

  lemma {:induction false} FoundByHash(ts: seq<Token>, h: TokenHash) returns (i: int)
    requires UniqueHashes(ts)
    ensures if FindToken(ts, h).Some? then 0 <= i < |ts| && ts[i].hash == h && FindToken(ts, h) == Some(ts[i])
            else forall j :: 0 <= j < |ts| ==> ts[j].hash != h
    ensures forall j :: 0 <= j < |ts| && ts[j].hash == h ==> j == i
  {
    i := 0;
    if ts != [] && ts[0].hash != h {
      forall j, k | 0 <= j < k < |ts[1..]| ensures ts[1..][j].hash != ts[1..][k].hash {
        assert ts[1..][j] == ts[j + 1] && ts[1..][k] == ts[k + 1];
      }
      i := FoundByHash(ts[1..], h);
      i := i + 1;
      assert forall j :: 1 <= j < |ts| ==> ts[j] == ts[1..][j - 1];
    }
  }

  /**
   * A request is let in, as the session's agent or the token's holder, if and only if it has a valid
   * session or the hash of an unrevoked, unexpired token of the room with the scope for it.  Only a
   * token that let it in and has at most a minute left is changed: it then has five minutes.
   */
  lemma AuthAnswers(db: Db, session: Option<AgentId>, h: TokenHash, r: RoomId, inScope: bool, now: Time, x: AgentId)
    requires UniqueHashes(db.tokens)
    ensures var (d, access) := AuthRoomAccess(db, session, h, r, inScope, now);
            && (access == As(x) <==> session == Some(x)
                                     || (session == None && inScope && exists i :: Opens(db.tokens, i, h, r, now) && db.tokens[i].agent == x))
            && (access == Denied(Forbidden) <==>
                  session == None && exists i, q :: Opens(db.tokens, i, h, q, now) && !(q == r && inScope))
            && (access == Denied(Unauthorized) <==> session == None && forall i, q :: !Opens(db.tokens, i, h, q, now))
            && d == db.(tokens := d.tokens) && |d.tokens| == |db.tokens|
            && forall i :: 0 <= i < |d.tokens| ==>
                 d.tokens[i] == if session == None && inScope && Opens(db.tokens, i, h, r, now) && db.tokens[i].expiresAt - now <= 60
                                then db.tokens[i].(expiresAt := now + 300) else db.tokens[i]
  {
    var k := FoundByHash(db.tokens, h);
    hide FindToken, UniqueHashes;
    if 0 <= k < |db.tokens| && db.tokens[k].hash == h {
      assert Opens(db.tokens, k, h, db.tokens[k].room, now) <==> db.tokens[k].revokedAt == None && db.tokens[k].expiresAt > now;
    }
  }

  ghost predicate InUse(ts: seq<Token>, h: TokenHash)
  {
    exists i :: 0 <= i < |ts| && ts[i].hash == h
  }

  /** Participants get a token for a room that has not ended; it is theirs for five minutes, and replaces the one they had. */
  lemma TokenAnswers(db: Db, cfg: Config, agent: AgentId, r: RoomId, h: TokenHash, t0: Time, t1: Time)
    requires Inv(db)
    ensures var (d, error) := CreateAccessToken(db, cfg, agent, r, h, t0, t1);
            && (error == Some(NotFound) <==> r !in db.rooms)
            && (r in db.rooms ==>
                  var rm := db.rooms[r];
                  var mine := agent == rm.agentA || rm.agentB == Some(agent);
                  var taken := InUse(db.tokens, h);
                  && (error == Some(Forbidden) <==> !mine)
                  && (error == Some(Gone) <==> mine && OverAt(rm, t0))
                  && (error == Some(Conflict) <==> mine && !OverAt(rm, t0) && taken)
                  && (error == None <==> mine && !OverAt(rm, t0) && !taken)
                  && if error == None then Issues(db, d, agent, r, h, t1) else d == Reconcile(db, cfg, r, t0))
  {
    if r in db.rooms {
      FoundBySend(db, cfg, r, t0);
      hide Inv, Reconcile, Issue, Issues, InUse;
      IssueIsExact(db, agent, r, h, t1);
    }
  }

  /** A recovery hands out a token only to the agent whose turn it is. */
  lemma RecoverAnswers(db: Db, cfg: Config, agent: AgentId, r: RoomId, h: TokenHash, t0: Time, t1: Time)
    requires Inv(db) && r in db.rooms
    ensures var (d, error) := RecoverRoom(db, cfg, agent, r, h, t0, t1);
            var rm := db.rooms[r];
            var turn := rm.state == Active && t0 <= rm.ttlAt && ItsTurn(rm, agent);
            var taken := InUse(db.tokens, h);
            && (error == Some(Conflict) <==> turn && taken)
            && (error == None <==> !(turn && taken))
            && if turn && !taken then Issues(db, d, agent, r, h, t1) else d == Reconcile(db, cfg, r, t0)
  {
    FoundBySend(db, cfg, r, t0);
    assert RoomOk(db.rooms[r], RowsOf(db, r));
    hide Inv, Reconcile, RowsOf, Issue, Issues, InUse;
    IssueIsExact(db, agent, r, h, t1);
  }

  /** The holder's tokens for the room are revoked and one is added. */
  ghost predicate Issues(db: Db, d: Db, agent: AgentId, r: RoomId, h: TokenHash, at: Time)
  {
    var n := |db.tokens|;
    && d == db.(tokens := d.tokens) && |d.tokens| == n + 1
    && RevokesExactly(db.tokens, d.tokens[..n], r, {agent}, at)
    && d.tokens[n] == Token(h, r, agent, at + 300, None)
  }

  lemma IssueIsExact(db: Db, agent: AgentId, r: RoomId, h: TokenHash, at: Time)
    ensures var (d, error) := Issue(db, agent, r, h, at);
            var taken := InUse(db.tokens, h);
            && error == (if taken then Some(Conflict) else None)
            && if taken then d == db else Issues(db, d, agent, r, h, at)
  {
    var revoked := RevokeAgent(db.tokens, r, agent, at);
    assert forall i :: 0 <= i < |db.tokens| ==> revoked[i] == Revoked(db.tokens[i], r, agent, at);
    assert (revoked + [Token(h, r, agent, at + TOKEN_TTL, None)])[..|db.tokens|] == revoked;
  }

  // ---------- what happens to a token ----------

  /** Token rows are never removed, keep room, holder and hash, and are never unrevoked. */
  ghost predicate Ages(before: seq<Token>, after: seq<Token>)
  {
    && |before| <= |after|
    && forall i :: 0 <= i < |before| ==>
         && after[i].hash == before[i].hash && after[i].room == before[i].room && after[i].agent == before[i].agent
         && (before[i].revokedAt.Some? ==> after[i] == before[i])
  }

  lemma RevokingAges(before: seq<Token>, after: seq<Token>, r: RoomId, holders: set<AgentId>, at: Time)
    requires RevokesExactly(before, after, r, holders, at)
    ensures Ages(before, after) && (UniqueHashes(before) ==> UniqueHashes(after))
  {}

  lemma NothingAges(ts: seq<Token>)
    ensures Ages(ts, ts)
  {}

  lemma AgesTwice(a: seq<Token>, b: seq<Token>, c: seq<Token>)
    requires Ages(a, b) && Ages(b, c)
    ensures Ages(a, c)
  {}

  lemma ReconcileAges(db: Db, cfg: Config, r: RoomId, now: Time)
    requires r in db.rooms && UniqueHashes(db.tokens)
    ensures Ages(db.tokens, Reconcile(db, cfg, r, now).tokens) && UniqueHashes(Reconcile(db, cfg, r, now).tokens)
  {
    hide UniqueHashes, Ages, Reconcile, RevokesExactly;
    ReconcileAnswers(db, cfg, r, now);
    NothingAges(db.tokens);
    var rm, after := db.rooms[r], Reconcile(db, cfg, r, now).tokens;
    if RevokesExactly(db.tokens, after, r, Holders(rm), now) {
      RevokingAges(db.tokens, after, r, Holders(rm), now);
    }
  }

  lemma CloseAges(db: Db, r: RoomId, at: Time)
    requires r in db.rooms && UniqueHashes(db.tokens)
    ensures Ages(db.tokens, CloseNow(db, r, at).tokens) && UniqueHashes(CloseNow(db, r, at).tokens)
  {
    hide UniqueHashes, Ages, RevokesExactly, RevokeParticipants;
    RevokingIsExact(db.tokens, r, db.rooms[r].(state := Closed, closedAt := Some(at)), at);
    RevokingAges(db.tokens, CloseNow(db, r, at).tokens, r, Holders(db.rooms[r].(state := Closed, closedAt := Some(at))), at);
  }

  lemma IssueAges(db: Db, agent: AgentId, r: RoomId, h: TokenHash, at: Time)
    requires UniqueHashes(db.tokens)
    ensures var after := Issue(db, agent, r, h, at).0.tokens; Ages(db.tokens, after) && UniqueHashes(after)
  {
    IssueIsExact(db, agent, r, h, at);
    hide Issue;
    NothingAges(db.tokens);
    var d, n := Issue(db, agent, r, h, at).0, |db.tokens|;
    if Issues(db, d, agent, r, h, at) {
      RevokingAges(db.tokens, d.tokens[..n], r, {agent}, at);
      forall i, j | 0 <= i < j <= n ensures d.tokens[i].hash != d.tokens[j].hash {
        assert d.tokens[..n][i].hash == db.tokens[i].hash;
      }
    }
  }

  lemma AuthAges(db: Db, session: Option<AgentId>, h: TokenHash, r: RoomId, inScope: bool, now: Time)
    requires UniqueHashes(db.tokens)
    ensures var after := AuthRoomAccess(db, session, h, r, inScope, now).0.tokens; Ages(db.tokens, after) && UniqueHashes(after)
  {
    AuthAnswers(db, session, h, r, inScope, now, 0);
    hide AuthRoomAccess;
  }

  lemma SendAges(db: Db, cfg: Config, agent: AgentId, r: RoomId, turn: int, draft: Draft, t0: Time, t1: Time)
    requires UniqueHashes(db.tokens)
    ensures var after := SendMessage(db, cfg, agent, r, turn, draft, t0, t1).0.tokens; Ages(db.tokens, after) && UniqueHashes(after)
  {
    hide UniqueHashes, Ages, SendRefusal, Reconcile, CloseNow;
    NothingAges(db.tokens);
    if !draft.blank && r in db.rooms {
      ReconcileAges(db, cfg, r, t0);
      ReconcileAnswers(db, cfg, r, t0);
      var d := Reconcile(db, cfg, r, t0);
      var rm := d.rooms[r];
      var spoken := d.(rooms := d.rooms[r := rm.(turnIndex := rm.turnIndex + 1)], messages := d.messages + [Message(r, agent, rm.turnIndex, t1)]);
      CloseAges(spoken, r, t1);
      AgesTwice(db.tokens, d.tokens, CloseNow(spoken, r, t1).tokens);
    }
  }

  lemma RoomOpsAge(db: Db, cfg: Config, op: Op)
    requires Inv(db) && UniqueHashes(db.tokens) && (op.OpJoin? || op.OpClose? || op.OpToken? || op.OpRecover? || op.OpObserve? || op.OpViewerJoin?)
    requires op.room in db.rooms
    ensures Ages(db.tokens, Apply(db, cfg, op).tokens) && UniqueHashes(Apply(db, cfg, op).tokens)
  {
    hide Inv, UniqueHashes, Ages, Reconcile, CloseNow, Issue, JoinRoom;
    ReconcileAges(db, cfg, op.room, op.t0);
    ReconcileAnswers(db, cfg, op.room, op.t0);
    var d := Reconcile(db, cfg, op.room, op.t0);
    if op.OpJoin? {
      JoinOnlyReconciles(db, cfg, op.joined, op.agent, op.room, op.t0);
    } else if op.OpClose? {
      CloseAges(d, op.room, op.t1);
      AgesTwice(db.tokens, d.tokens, CloseNow(d, op.room, op.t1).tokens);
    } else if op.OpToken? || op.OpRecover? {
      IssueAges(d, op.agent, op.room, op.hash, op.t1);
      AgesTwice(db.tokens, d.tokens, Issue(d, op.agent, op.room, op.hash, op.t1).0.tokens);
    }
  }

  lemma OtherOpsLeaveTokens(db: Db, cfg: Config, op: Op)
    requires !op.OpSend? && !op.OpAuth?
    requires (op.OpJoin? || op.OpClose? || op.OpToken? || op.OpRecover? || op.OpObserve? || op.OpViewerJoin?) ==> op.room !in db.rooms
    ensures Apply(db, cfg, op).tokens == db.tokens
  {}

  lemma TokensAge(db: Db, cfg: Config, op: Op)
    requires Inv(db) && UniqueHashes(db.tokens)
    ensures Ages(db.tokens, Apply(db, cfg, op).tokens) && UniqueHashes(Apply(db, cfg, op).tokens)
  {
    hide Inv, UniqueHashes, Ages, SendMessage, AuthRoomAccess;
    NothingAges(db.tokens);
    match op
    case OpSend(a, r, turn, draft, t0, t1) => SendAges(db, cfg, a, r, turn, draft, t0, t1);
    case OpAuth(session, h, r, inScope, t0) => AuthAges(db, session, h, r, inScope, t0);
    case _ =>
      if (op.OpJoin? || op.OpClose? || op.OpToken? || op.OpRecover? || op.OpObserve? || op.OpViewerJoin?) && op.room in db.rooms {
        RoomOpsAge(db, cfg, op);
      } else {
        OtherOpsLeaveTokens(db, cfg, op);
      }
  }

  lemma {:induction false} TokensAgeInRuns(db: Db, cfg: Config, ops: seq<Op>)
    requires Inv(db) && UniqueHashes(db.tokens)
    ensures Ages(db.tokens, Run(db, cfg, ops).tokens) && UniqueHashes(Run(db, cfg, ops).tokens)
  {
    hide Inv, UniqueHashes, Ages, Apply;
    if ops == [] {
      NothingAges(db.tokens);
    } else {
      var before := ops[..|ops|-1];
      TokensAgeInRuns(db, cfg, before);
      RunKeepsInv(db, cfg, before);
      TokensAge(Run(db, cfg, before), cfg, ops[|ops|-1]);
      AgesTwice(db.tokens, Run(db, cfg, before).tokens, Run(db, cfg, ops).tokens);
    }
  }

  // ---------- laws of every run ----------

  /** A revoked token never lets anyone in again, whatever happens. */
  lemma RevokedTokensStayShut(db: Db, cfg: Config, ops: seq<Op>, i: nat, r: RoomId, inScope: bool, now: Time)
    requires Inv(db) && UniqueHashes(db.tokens) && i < |db.tokens| && db.tokens[i].revokedAt.Some?
    ensures AuthRoomAccess(Run(db, cfg, ops), None, db.tokens[i].hash, r, inScope, now).1 == Denied(Unauthorized)
  {
    TokensAgeInRuns(db, cfg, ops);
    var end, h := Run(db, cfg, ops), db.tokens[i].hash;
    AuthAnswers(end, None, h, r, inScope, now, 0);
    hide Run, AuthRoomAccess;
    assert end.tokens[i] == db.tokens[i];
    assert forall j :: 0 <= j < |end.tokens| && end.tokens[j].hash == h ==> j == i;
  }

  lemma NoLiveTokensOfEndedRooms(db: Db, r: RoomId, i: nat)
    requires Inv(db) && r in db.rooms && (db.rooms[r].state == Closed || db.rooms[r].state == Purged)
    requires i < |db.tokens| && db.tokens[i].room == r
    ensures db.tokens[i].revokedAt.Some?
  {
    hide Wakes, Said, Notified;
    assert RoomOk(db.rooms[r], RowsOf(db, r));
    if db.tokens[i].revokedAt.None? {
      LiveRowCounts(db.tokens, r, db.tokens[i].agent, i);
    }
  }

  /** While a room is closed or purged no token opens it. */
  lemma EndedRoomsAdmitNobody(db: Db, cfg: Config, ops: seq<Op>, h: TokenHash, r: RoomId, inScope: bool, now: Time)
    requires Inv(db) && UniqueHashes(db.tokens)
    requires r in Run(db, cfg, ops).rooms && (Run(db, cfg, ops).rooms[r].state == Closed || Run(db, cfg, ops).rooms[r].state == Purged)
    ensures AuthRoomAccess(Run(db, cfg, ops), None, h, r, inScope, now).1.Denied?
  {
    RunKeepsInv(db, cfg, ops);
    TokensAgeInRuns(db, cfg, ops);
    var end := Run(db, cfg, ops);
    hide Run, Inv, Ages;
    var access := AuthRoomAccess(end, None, h, r, inScope, now).1;
    if access.As? {
      AuthAnswers(end, None, h, r, inScope, now, access.agent);
      hide AuthRoomAccess;
      var i :| Opens(end.tokens, i, h, r, now);
      NoLiveTokensOfEndedRooms(end, r, i);
      assert false;
    }
  }

  /** A token that a room had when it ended opens nothing ever again, even if the room comes back. */
  lemma EndingShutsTokensForGood(db: Db, cfg: Config, ops: seq<Op>, i: nat, r: RoomId, q: RoomId, inScope: bool, now: Time)
    requires Inv(db) && UniqueHashes(db.tokens) && r in db.rooms && (db.rooms[r].state == Closed || db.rooms[r].state == Purged)
    requires i < |db.tokens| && db.tokens[i].room == r
    ensures AuthRoomAccess(Run(db, cfg, ops), None, db.tokens[i].hash, q, inScope, now).1 == Denied(Unauthorized)
  {
    NoLiveTokensOfEndedRooms(db, r, i);
    RevokedTokensStayShut(db, cfg, ops, i, q, inScope, now);
  }

  /** What issuing did to the holder's earlier tokens, and to the new one. */
  ghost predicate Replaced(before: seq<Token>, after: seq<Token>, agent: AgentId, r: RoomId)
  {
    && |after| == |before| + 1
    && forall i :: 0 <= i < |before| ==>
         && after[i].hash == before[i].hash
         && (before[i].room == r && before[i].agent == agent ==> after[i].revokedAt.Some?)
  }

  lemma IssuesReplaces(db: Db, d: Db, agent: AgentId, r: RoomId, h: TokenHash, at: Time)
    requires Issues(db, d, agent, r, h, at)
    ensures Replaced(db.tokens, d.tokens, agent, r) && d.tokens[|db.tokens|] == Token(h, r, agent, at + 300, None)
  {
    forall i | 0 <= i < |db.tokens|
      ensures d.tokens[i].hash == db.tokens[i].hash
      ensures db.tokens[i].room == r && db.tokens[i].agent == agent ==> d.tokens[i].revokedAt.Some?
    {
      assert d.tokens[..|db.tokens|][i] == d.tokens[i];
    }
  }

  lemma IsTheOp(db: Db, cfg: Config, agent: AgentId, r: RoomId, h: TokenHash, t0: Time, t1: Time)
    ensures Apply(db, cfg, OpToken(agent, r, h, t0, t1)) == CreateAccessToken(db, cfg, agent, r, h, t0, t1).0
    ensures r !in db.rooms ==> CreateAccessToken(db, cfg, agent, r, h, t0, t1).1 == Some(NotFound)
  {
    hide Reconcile, Issue;
  }

  lemma IssuedRows(db: Db, cfg: Config, agent: AgentId, r: RoomId, h: TokenHash, t0: Time, t1: Time)
    requires Inv(db) && UniqueHashes(db.tokens) && CreateAccessToken(db, cfg, agent, r, h, t0, t1).1 == None
    ensures var d := CreateAccessToken(db, cfg, agent, r, h, t0, t1).0;
            && Inv(d) && UniqueHashes(d.tokens) && Replaced(db.tokens, d.tokens, agent, r)
            && d.tokens[|db.tokens|] == Token(h, r, agent, t1 + 300, None)
  {
    hide Inv, UniqueHashes, Reconcile, Issue, Issues, Replaced, Ages, OverAt, Steps, Apply;
    IsTheOp(db, cfg, agent, r, h, t0, t1);
    hide CreateAccessToken;
    TokenAnswers(db, cfg, agent, r, h, t0, t1);
    var op := OpToken(agent, r, h, t0, t1);
    ApplyKeeps(db, cfg, op);
    TokensAge(db, cfg, op);
    IssuesReplaces(db, CreateAccessToken(db, cfg, agent, r, h, t0, t1).0, agent, r, h, t1);
  }

  /** A new token opens its room for five minutes. */
  lemma NewTokensOpen(db: Db, cfg: Config, agent: AgentId, r: RoomId, h: TokenHash, t0: Time, t1: Time, now: Time)
    requires Inv(db) && UniqueHashes(db.tokens) && CreateAccessToken(db, cfg, agent, r, h, t0, t1).1 == None && now < t1 + 300
    ensures AuthRoomAccess(CreateAccessToken(db, cfg, agent, r, h, t0, t1).0, None, h, r, true, now).1 == As(agent)
  {
    IssuedRows(db, cfg, agent, r, h, t0, t1);
    var d := CreateAccessToken(db, cfg, agent, r, h, t0, t1).0;
    hide Inv, CreateAccessToken, UniqueHashes;
    assert Opens(d.tokens, |db.tokens|, h, r, now);
    AuthAnswers(d, None, h, r, true, now, agent);
    hide AuthRoomAccess;
  }

  /** Once a holder has a new token for a room, its earlier ones open nothing any more. */
  lemma NewTokensReplaceOldOnes(db: Db, cfg: Config, agent: AgentId, r: RoomId, h: TokenHash, t0: Time, t1: Time,
                                ops: seq<Op>, i: nat, q: RoomId, inScope: bool, now: Time)
    requires Inv(db) && UniqueHashes(db.tokens) && CreateAccessToken(db, cfg, agent, r, h, t0, t1).1 == None
    requires i < |db.tokens| && db.tokens[i].room == r && db.tokens[i].agent == agent
    ensures var after := Run(CreateAccessToken(db, cfg, agent, r, h, t0, t1).0, cfg, ops);
            AuthRoomAccess(after, None, db.tokens[i].hash, q, inScope, now).1 == Denied(Unauthorized)
  {
    IssuedRows(db, cfg, agent, r, h, t0, t1);
    hide Inv, CreateAccessToken, UniqueHashes, Run, AuthRoomAccess;
    RevokedTokensStayShut(CreateAccessToken(db, cfg, agent, r, h, t0, t1).0, cfg, ops, i, q, inScope, now);
  }
}
