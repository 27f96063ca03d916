/**
 * The store's tables and the service's methods over them, written step by step as the
 * service runs them.  Each method's effect on the tables is the operation of RoomOps,
 * whose consequences over whole runs RoomRuns proves.
 */
module RoomService {
  import opened Prelude
  import opened RoomLifecycle
  import opened RoomTables
  import opened RoomOps

  class Store {
    var rooms: map<RoomId, Room>
    var listings: map<ListingId, Listing>
    var messages: seq<Message>
    var deliveries: seq<Delivery>
    var tokens: seq<Token>
    var viewers: map<ViewerId, Viewer>
    var policy: map<AgentId, Penalty>

    function Contents(): Db
      reads this
    {
      Db(rooms, listings, messages, deliveries, tokens, viewers, policy)
    }

    constructor (db: Db)
      ensures Contents() == db
    {
      rooms, listings, messages := db.rooms, db.listings, db.messages;
      deliveries, tokens, viewers, policy := db.deliveries, db.tokens, db.viewers, db.policy;
    }

    /** Undoes a transaction that failed. */
    method Rollback(saved: Db)
      modifies this
      ensures Contents() == saved
    {
      rooms, listings, messages := saved.rooms, saved.listings, saved.messages;
      deliveries, tokens, viewers, policy := saved.deliveries, saved.tokens, saved.viewers, saved.policy;
    }

    /** Read-modify-write of one row: only the fields that are given change. */
    method UpdateRoom(r: RoomId, agentB: Option<AgentId>, state: Option<RoomState>, turnIndex: Option<nat>, closedAt: Option<Time>, purgedAt: Option<Time>)
      returns (row: Room)
      requires r in rooms
      modifies this`rooms
      ensures rooms == old(rooms)[r := row]
      ensures row.agentB == (if agentB.Some? then agentB else old(rooms)[r].agentB)
      ensures row.state == (if state.Some? then state.value else old(rooms)[r].state)
      ensures row.turnIndex == (if turnIndex.Some? then turnIndex.value else old(rooms)[r].turnIndex)
      ensures row.closedAt == (if closedAt.Some? then closedAt else old(rooms)[r].closedAt)
      ensures row.purgedAt == (if purgedAt.Some? then purgedAt else old(rooms)[r].purgedAt)
      ensures row == old(rooms)[r].(agentB := row.agentB, state := row.state, turnIndex := row.turnIndex, closedAt := row.closedAt, purgedAt := row.purgedAt)
    {
      row := rooms[r];
      if state.Some? { row := row.(state := state.value); }
      if agentB.Some? { row := row.(agentB := agentB); }
      if turnIndex.Some? { row := row.(turnIndex := turnIndex.value); }
      if closedAt.Some? { row := row.(closedAt := closedAt); }
      if purgedAt.Some? { row := row.(purgedAt := purgedAt); }
      rooms := rooms[r := row];
    }

    /** Inserts the message unless the room already has one for this turn. */
    method AppendMessage(m: Message) returns (conflict: bool)
      modifies this`messages
      ensures conflict == TurnTaken(old(messages), m.room, m.turn)
      ensures messages == if conflict then old(messages) else old(messages) + [m]
    {
      conflict := false;
      var i := 0;
      while i < |messages|
        invariant 0 <= i <= |messages|
        invariant conflict == exists k :: 0 <= k < i && messages[k].room == m.room && messages[k].turn == m.turn
      {
        if messages[i].room == m.room && messages[i].turn == m.turn { conflict := true; }
        i := i + 1;
      }
      if !conflict { messages := messages + [m]; }
    }

    method CountMessages(r: RoomId, sender: AgentId, since: Time) returns (bySender: nat, byRoom: nat)
      ensures bySender == CountBySender(messages, sender, since) && byRoom == CountByRoom(messages, r, since)
    {
      bySender, byRoom := 0, 0;
      var i := 0;
      while i < |messages|
        invariant 0 <= i <= |messages|
        invariant bySender == CountBySender(messages[..i], sender, since)
        invariant byRoom == CountByRoom(messages[..i], r, since)
      {
        assert messages[..i+1][..i] == messages[..i];
        if messages[i].sender == sender && messages[i].createdAt >= since { bySender := bySender + 1; }
        if messages[i].room == r && messages[i].createdAt >= since { byRoom := byRoom + 1; }
        i := i + 1;
      }
      assert messages[..i] == messages;
    }

    method RevokeRoomScopedTokens(r: RoomId, x: AgentId, at: Time)
      modifies this`tokens
      ensures tokens == RevokeAgent(old(tokens), r, x, at)
    {
      var i := 0;
      while i < |tokens|
        invariant 0 <= i <= |tokens| == |old(tokens)|
        invariant forall k :: 0 <= k < i ==> tokens[k] == Revoked(old(tokens)[k], r, x, at)
        invariant forall k :: i <= k < |tokens| ==> tokens[k] == old(tokens)[k]
      {
        if tokens[i].room == r && tokens[i].agent == x && tokens[i].revokedAt.None? {
          tokens := tokens[i := tokens[i].(revokedAt := Some(at))];
        }
        i := i + 1;
      }
    }

    method RevokeForRoom(r: RoomId, rm: Room, at: Time)
      modifies this`tokens
      ensures tokens == RevokeParticipants(old(tokens), r, rm, at)
    {
      RevokeRoomScopedTokens(r, rm.agentA, at);
      if rm.agentB.Some? {
        RevokeRoomScopedTokens(r, rm.agentB.value, at);
      }
    }

    method TouchRoomScopedToken(h: TokenHash, until: Time)
      modifies this`tokens
      ensures tokens == Touch(old(tokens), h, until)
    {
      var i := 0;
      while i < |tokens|
        invariant 0 <= i <= |tokens| == |old(tokens)|
        invariant forall k :: 0 <= k < i ==> tokens[k] == Touch(old(tokens), h, until)[k]
        invariant forall k :: i <= k < |tokens| ==> tokens[k] == old(tokens)[k]
      {
        if tokens[i].hash == h && tokens[i].revokedAt.None? {
          tokens := tokens[i := tokens[i].(expiresAt := until)];
        }
        i := i + 1;
      }
    }

    method CreateRoomScopedToken(t: Token) returns (conflict: bool)
      modifies this`tokens
      ensures conflict == HashTaken(old(tokens), t.hash)
      ensures tokens == if conflict then old(tokens) else old(tokens) + [t]
    {
      conflict := exists i :: 0 <= i < |tokens| && tokens[i].hash == t.hash;
      if !conflict { tokens := tokens + [t]; }
    }

    method CountActiveViewers(r: RoomId, activeSince: Time) returns (count: nat)
      ensures count == |set v | v in viewers && viewers[v].room == r && !viewers[v].left && viewers[v].lastHeartbeat >= activeSince|
    {
      var todo := viewers.Keys;
      var active: set<ViewerId> := {};
      while todo != {}
        invariant todo <= viewers.Keys
        invariant active == set v | v in viewers && v !in todo && viewers[v].room == r && !viewers[v].left && viewers[v].lastHeartbeat >= activeSince
        decreases todo
      {
        var v :| v in todo;
        if viewers[v].room == r && !viewers[v].left && viewers[v].lastHeartbeat >= activeSince {
          active := active + {v};
        }
        todo := todo - {v};
      }
      count := |active|;
      assert active == set v | v in viewers && viewers[v].room == r && !viewers[v].left && viewers[v].lastHeartbeat >= activeSince;
    }

    method PurgeRoomContent(r: RoomId, at: Time)
      requires r in rooms
      modifies this
      ensures Contents() == old(Contents()).(
        rooms := old(rooms)[r := old(rooms)[r].(state := Purged, purgedAt := Some(at))],
        messages := WithoutRoom(old(messages), r),
        viewers := map v | v in old(viewers) && old(viewers)[v].room != r :: old(viewers)[v])
    {
      var kept: seq<Message> := [];
      var i := 0;
      while i < |messages|
        invariant 0 <= i <= |messages|
        invariant kept == WithoutRoom(messages[..i], r)
      {
        assert messages[..i+1][..i] == messages[..i];
        if messages[i].room != r { kept := kept + [messages[i]]; }
        i := i + 1;
      }
      assert messages[..i] == messages;
      messages := kept;
      viewers := map v | v in viewers && viewers[v].room != r :: viewers[v];
      rooms := rooms[r := rooms[r].(state := Purged, purgedAt := Some(at))];
    }
  }

  class Service {
    const store: Store
    const cfg: Config
    var joined: map<RoomId, set<AgentId>>

    constructor (store: Store, cfg: Config)
      ensures this.store == store && this.cfg == cfg && joined == map[]
    {
      this.store, this.cfg, this.joined := store, cfg, map[];
    }

    method EnqueueTurnReady(rm: Room, r: RoomId, at: Time)
      modifies store`deliveries
      ensures store.deliveries == old(store.deliveries) + TurnReadyNotice(rm, r, at)
    {
      var target := rm.NextActor();
      if rm.state == Active && target.Some? {
        store.deliveries := store.deliveries + [Delivery(target.value, r, TurnReady(rm.turnIndex), at + REPLAY_WINDOW)];
      }
    }

    method EnqueueTerminal(rm: Room, r: RoomId, n: Notice, at: Time)
      modifies store`deliveries
      ensures store.deliveries == old(store.deliveries) + Terminal(rm, r, n, at)
    {
      var targets := if rm.agentB.Some? && rm.agentB.value != rm.agentA then [rm.agentA, rm.agentB.value] else [rm.agentA];
      for i := 0 to |targets|
        invariant store.deliveries == old(store.deliveries) + Terminal(rm, r, n, at)[..i]
      {
        store.deliveries := store.deliveries + [Delivery(targets[i], r, n, at + REPLAY_WINDOW)];
      }
    }

    method CloseTx(r: RoomId, at: Time)
      requires r in store.rooms
      modifies store
      ensures store.Contents() == CloseNow(old(store.Contents()), r, at)
    {
      var rm := store.UpdateRoom(r, None, Some(Closed), None, Some(at), None);
      store.RevokeForRoom(r, rm, at);
      EnqueueTerminal(rm, r, RoomClosed, at);
    }

    method ReconcileRoom(r: RoomId, now: Time)
      requires r in store.rooms
      modifies store
      ensures store.Contents() == Reconcile(old(store.Contents()), cfg, r, now)
      ensures r in store.rooms
    {
      var rm := store.rooms[r];
      if rm.state == Open || rm.state == Active {
        if now > rm.ttlAt { CloseTx(r, now); }
      } else if rm.state == Closed {
        if rm.closedAt.None? {
          rm := store.UpdateRoom(r, None, None, None, Some(now), None);
        }
        assert store.rooms == old(store.rooms)[r := rm];
        var active := store.CountActiveViewers(r, now - cfg.heartbeat);
        var age := now - rm.closedAt.value;
        NoneActive(store.Contents(), cfg, r, now);
        if (active == 0 && age >= cfg.grace) || age >= cfg.cap {
          store.PurgeRoomContent(r, now);
          store.RevokeForRoom(r, rm, now);
          EnqueueTerminal(store.rooms[r], r, RoomPurged, now);
        }
      }
    }

    method CloseRoom(agent: AgentId, r: RoomId, t0: Time, t1: Time) returns (error: Option<Error>)
      modifies store
      ensures (store.Contents(), error) == RoomOps.CloseRoom(old(store.Contents()), cfg, agent, r, t0, t1)
    {
      if r !in store.rooms { return Some(NotFound); }
      ReconcileRoom(r, t0);
      var rm := store.rooms[r];
      if !rm.Participant(agent) { return Some(Forbidden); }
      if rm.state == Purged { return Some(Gone); }
      if rm.state == Closed { return None; }
      CloseTx(r, t1);
      return None;
    }

    method CreateListing(agent: AgentId, l: ListingId, r: RoomId, topicBlank: bool, maxTurns: int, ttlSeconds: int, now: Time)
      returns (error: Option<Error>)
      modifies store
      ensures (store.Contents(), error)
           == RoomOps.CreateListing(old(store.Contents()), agent, l, r, topicBlank, maxTurns, ttlSeconds, now)
    {
      if topicBlank { return Some(BadRequest); }
      var turns, ttl := maxTurns, ttlSeconds;
      if turns <= 0 { turns := 20; }
      if ttl <= 0 { ttl := 900; }
      var saved := store.Contents();
      if r in store.rooms { return Some(Conflict); }
      store.rooms := store.rooms[r := Room(agent, None, Open, 0, turns, now + ttl, None, None)];
      if l in store.listings {
        store.Rollback(saved);
        return Some(Conflict);
      }
      store.listings := store.listings[l := Listing(agent, turns, ttl, false, Some(r))];
      return None;
    }

    method ConnectListing(agent: AgentId, l: ListingId, newRoom: RoomId, now: Time) returns (error: Option<Error>)
      modifies store
      ensures (store.Contents(), error) == RoomOps.ConnectListing(old(store.Contents()), agent, l, newRoom, now)
    {
      if l !in store.listings { return Some(NotFound); }
      var item := store.listings[l];
      if item.owner == agent { return Some(Forbidden); }
      if item.connected { return Some(Conflict); }
      var saved := store.Contents();
      store.listings := store.listings[l := item.(connected := true)];
      var r := newRoom;
      var rm: Room;
      if item.room.None? {
        if newRoom in store.rooms {
          store.Rollback(saved);
          return Some(Conflict);
        }
        rm := Room(item.owner, Some(agent), Active, 0, item.maxTurns, now + item.ttlSeconds, None, None);
        store.rooms := store.rooms[newRoom := rm];
        assert store.rooms == saved.rooms[newRoom := rm.(agentB := None, state := Open)][newRoom := rm];
      } else {
        r := item.room.value;
        if r !in store.rooms {
          store.Rollback(saved);
          return Some(NotFound);
        }
        if store.rooms[r].agentB.Some? {
          store.Rollback(saved);
          return Some(Conflict);
        }
        rm := store.UpdateRoom(r, Some(agent), Some(Active), None, None, None);
      }
      EnqueueTurnReady(rm, r, now);
      return None;
    }

    method JoinRoom(agent: AgentId, r: RoomId, now: Time) returns (error: Option<Error>)
      modifies this, store
      ensures (store.Contents(), error)
           == RoomOps.JoinRoom(old(store.Contents()), cfg, if r in old(joined) then old(joined)[r] else {}, agent, r, now)
      ensures error.None? ==> joined == old(joined)[r := (if r in old(joined) then old(joined)[r] else {}) + {agent}]
      ensures error.Some? ==> joined == old(joined)
    {
      if r !in store.rooms { return Some(NotFound); }
      ReconcileRoom(r, now);
      var rm := store.rooms[r];
      if !rm.Participant(agent) { return Some(Forbidden); }
      if rm.state == Closed || rm.state == Purged { return Some(Gone); }
      var here := if r in joined then joined[r] else {};
      joined := joined[r := here + {agent}];
      if JoinActivates(rm, joined[r]) {
        var active := store.UpdateRoom(r, None, Some(Active), None, None, None);
        EnqueueTurnReady(active, r, now);
      }
      return None;
    }

    method CreateRoomAccessToken(agent: AgentId, r: RoomId, h: TokenHash, t0: Time, t1: Time) returns (error: Option<Error>)
      modifies store
      ensures (store.Contents(), error) == CreateAccessToken(old(store.Contents()), cfg, agent, r, h, t0, t1)
    {
      if r !in store.rooms { return Some(NotFound); }
      ReconcileRoom(r, t0);
      var rm := store.rooms[r];
      if !rm.Participant(agent) { return Some(Forbidden); }
      if rm.state != Open && rm.state != Active { return Some(Gone); }
      var saved := store.Contents();
      store.RevokeRoomScopedTokens(r, agent, t1);
      RevokeKeepsHashes(saved.tokens, r, agent, t1, h);
      var conflict := store.CreateRoomScopedToken(Token(h, r, agent, t1 + TOKEN_TTL, None));
      if conflict {
        store.Rollback(saved);
        return Some(Conflict);
      }
      return None;
    }

    method AuthRoomAccess(session: Option<AgentId>, h: TokenHash, r: RoomId, inScope: bool, now: Time) returns (access: Access)
      modifies store
      ensures (store.Contents(), access) == RoomOps.AuthRoomAccess(old(store.Contents()), session, h, r, inScope, now)
    {
      if session.Some? { return As(session.value); }
      var found := FindToken(store.tokens, h);
      if found.None? || found.value.revokedAt.Some? || found.value.expiresAt <= now { return Denied(Unauthorized); }
      if found.value.room != r { return Denied(Forbidden); }
      if !inScope { return Denied(Forbidden); }
      if found.value.expiresAt - now <= REFRESH_THRESHOLD {
        store.TouchRoomScopedToken(h, now + TOKEN_TTL);
      }
      return As(found.value.agent);
    }

    method SendMessage(agent: AgentId, r: RoomId, expectedTurn: int, draft: Draft, t0: Time, t1: Time) returns (result: SendResult)
      modifies store
      ensures (store.Contents(), result) == RoomOps.SendMessage(old(store.Contents()), cfg, agent, r, expectedTurn, draft, t0, t1)
    {
      if draft.blank { return Rejected(BadRequest); }
      if r !in store.rooms { return Rejected(NotFound); }
      ReconcileRoom(r, t0);
      var rm := store.rooms[r];
      if !rm.Participant(agent) { return Rejected(Forbidden); }
      if rm.state == Closed || rm.state == Purged { return Rejected(Gone); }
      if rm.state != Active { return Rejected(RoomNotActive); }
      if t1 > rm.ttlAt { return Rejected(Gone); }
      if expectedTurn != rm.turnIndex { return Rejected(TurnMismatch); }
      var expectedSender := if rm.turnIndex % 2 == 1 then rm.agentB else Some(rm.agentA);
      if expectedSender != Some(agent) { return Rejected(TurnMismatch); }
      if draft.verdict == TooLarge { return Rejected(PayloadTooLarge); }
      var saved := store.Contents();
      result := SendTx(agent, r, rm, draft, t1);
      if result.Rejected? { store.Rollback(saved); }
    }

    /** The transaction of SendMessage; the caller undoes it when it fails. */
    method SendTx(agent: AgentId, r: RoomId, rm: Room, draft: Draft, now: Time) returns (result: SendResult)
      requires r in store.rooms && rm == store.rooms[r] && rm.state == Active && now <= rm.ttlAt
      requires rm.Participant(agent) && rm.NextActor() == Some(agent) && draft.verdict != TooLarge
      modifies store
      ensures var refusal := SendRefusal(old(store.Contents()), agent, r, rm.turnIndex, draft, now);
              if refusal.Some? then result == Rejected(refusal.value)
              else store.Contents() == SendCommit(old(store.Contents()), agent, r, now)
                   && result == Accepted(store.rooms[r].state, store.rooms[r].turnIndex)
    {
      if Blocked(store.Contents(), agent, now) { return Rejected(PolicyBlocked); }
      var bySender, byRoom := store.CountMessages(r, agent, now - 60);
      if bySender >= MAX_PER_MINUTE_AGENT || byRoom >= MAX_PER_MINUTE_ROOM { return Rejected(RateLimit); }
      if draft.verdict == Violation {
        store.policy := RecordViolation(store.policy, agent, now);
        return Rejected(PolicyBlocked);
      }
      if !draft.current { return Rejected(StaleBundleHash); }
      var conflict := store.AppendMessage(Message(r, agent, rm.turnIndex, now));
      if conflict { return Rejected(TurnMismatch); }
      var last := rm.turnIndex + 1 >= rm.maxTurns;
      var updated := store.UpdateRoom(r, None, if last then Some(Closed) else None, Some(rm.turnIndex + 1), if last then Some(now) else None, None);
      if last {
        store.RevokeForRoom(r, updated, now);
        EnqueueTerminal(updated, r, RoomClosed, now);
        assert store.rooms == old(store.rooms)[r := rm.(turnIndex := rm.turnIndex + 1)][r := updated];
      } else {
        EnqueueTurnReady(updated, r, now);
      }
      return Accepted(updated.state, updated.turnIndex);
    }
  }

  /** A count of live viewers is zero exactly when no viewer is live. */
  lemma NoneActive(db: Db, cfg: Config, r: RoomId, now: Time)
    ensures HasActiveViewer(db, cfg, r, now) <==>
            |set v | v in db.viewers && db.viewers[v].room == r && !db.viewers[v].left && db.viewers[v].lastHeartbeat >= now - cfg.heartbeat| != 0
  {
    var active := set v | v in db.viewers && db.viewers[v].room == r && !db.viewers[v].left && db.viewers[v].lastHeartbeat >= now - cfg.heartbeat;
    if v :| v in active {
      assert v in db.viewers;
      assert |active| != 0 by { assert |active - {v}| == |active| - 1; }
    } else {
      assert active == {};
    }
    if HasActiveViewer(db, cfg, r, now) {
      var v :| v in db.viewers && db.viewers[v].room == r && !db.viewers[v].left && db.viewers[v].lastHeartbeat >= now - cfg.heartbeat;
      assert v in active;
    }
  }

  lemma RevokeKeepsHashes(ts: seq<Token>, r: RoomId, x: AgentId, at: Time, h: TokenHash)
    ensures HashTaken(RevokeAgent(ts, r, x, at), h) <==> HashTaken(ts, h)
  {
    var out := RevokeAgent(ts, r, x, at);
    assert forall i :: 0 <= i < |ts| ==> out[i].hash == ts[i].hash;
    if HashTaken(ts, h) {
      var i :| 0 <= i < |ts| && ts[i].hash == h;
      assert out[i].hash == h;
    }
  }
}
