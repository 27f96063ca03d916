/**
 * What each room operation of the service does to the tables, one service call or
 * store transaction at a time.  A rejected transaction leaves the tables as they were.
 */
module RoomOps {
  import opened Prelude
  import opened RoomLifecycle
  import opened RoomTables

  const REPLAY_WINDOW := 1800
  const TOKEN_TTL := 300
  const REFRESH_THRESHOLD := 60
  const MAX_PER_MINUTE_AGENT := 30
  const MAX_PER_MINUTE_ROOM := 60
  const MAX_VIOLATIONS := 3
  const VIOLATION_WINDOW := 300
  const BLOCK_DURATION := 900

  datatype Config = Config(heartbeat: int, grace: int, cap: int)

  datatype Error =
    | BadRequest | NotFound | Forbidden | Conflict | Gone | RoomNotActive | TurnMismatch
    | PayloadTooLarge | PolicyBlocked | RateLimit | StaleBundleHash | Unauthorized

  // ---------- notices ----------

  /** One terminal notice for each distinct participant. */
  function Terminal(rm: Room, r: RoomId, n: Notice, at: Time): seq<Delivery>
  {
    var toA := [Delivery(rm.agentA, r, n, at + REPLAY_WINDOW)];
    if rm.agentB.Some? && rm.agentB.value != rm.agentA
    then toA + [Delivery(rm.agentB.value, r, n, at + REPLAY_WINDOW)]
    else toA
  }

  /** A wake for the agent to move, only while the room is active. */
  function TurnReadyNotice(rm: Room, r: RoomId, at: Time): seq<Delivery>
  {
    if rm.state == Active && rm.NextActor().Some?
    then [Delivery(rm.NextActor().value, r, TurnReady(rm.turnIndex), at + REPLAY_WINDOW)]
    else []
  }

  /** Closing and purging revoke the tokens of both participants, and of nobody else. */
  function RevokeParticipants(ts: seq<Token>, r: RoomId, rm: Room, at: Time): seq<Token>
  {
    var noA := RevokeAgent(ts, r, rm.agentA, at);
    if rm.agentB.Some? then RevokeAgent(noA, r, rm.agentB.value, at) else noA
  }

  // ---------- close, purge, reconcile ----------

  function CloseNow(db: Db, r: RoomId, at: Time): Db
    requires r in db.rooms
  {
    var rm := db.rooms[r].(state := Closed, closedAt := Some(at));
    db.(rooms := db.rooms[r := rm],
        tokens := RevokeParticipants(db.tokens, r, rm, at),
        deliveries := db.deliveries + Terminal(rm, r, RoomClosed, at))
  }

  predicate HasActiveViewer(db: Db, cfg: Config, r: RoomId, now: Time)
  {
    exists v <- db.viewers ::
      db.viewers[v].room == r && !db.viewers[v].left && db.viewers[v].lastHeartbeat >= now - cfg.heartbeat
  }

  predicate PurgeDue(db: Db, cfg: Config, r: RoomId, closedAt: Time, now: Time)
  {
    || (!HasActiveViewer(db, cfg, r, now) && now - closedAt >= cfg.grace)
    || now - closedAt >= cfg.cap
  }

  function PurgeNow(db: Db, r: RoomId, at: Time): Db
    requires r in db.rooms
  {
    var rm := db.rooms[r].(state := Purged, purgedAt := Some(at));
    db.(rooms := db.rooms[r := rm],
        messages := WithoutRoom(db.messages, r),
        viewers := map v | v in db.viewers && db.viewers[v].room != r :: db.viewers[v],
        tokens := RevokeParticipants(db.tokens, r, rm, at),
        deliveries := db.deliveries + Terminal(rm, r, RoomPurged, at))
  }

  /** Every read of a room first closes it when its time is up, or purges it when it is due. */
  function Reconcile(db: Db, cfg: Config, r: RoomId, now: Time): Db
    requires r in db.rooms
  {
    var rm := db.rooms[r];
    match rm.state
    case Open => if now > rm.ttlAt then CloseNow(db, r, now) else db
    case Active => if now > rm.ttlAt then CloseNow(db, r, now) else db
    case Closed =>
      var closedAt := if rm.closedAt.Some? then rm.closedAt.value else now;
      var stamped := db.(rooms := db.rooms[r := rm.(closedAt := Some(closedAt))]);
      if PurgeDue(db, cfg, r, closedAt, now) then PurgeNow(stamped, r, now) else stamped
    case Purged => db
  }

  function CloseRoom(db: Db, cfg: Config, agent: AgentId, r: RoomId, t0: Time, t1: Time): (Db, Option<Error>)
  {
    if r !in db.rooms then (db, Some(NotFound)) else
    var d := Reconcile(db, cfg, r, t0);
    if !d.rooms[r].Participant(agent) then (d, Some(Forbidden))
    else if d.rooms[r].state == Purged then (d, Some(Gone))
    else if d.rooms[r].state == Closed then (d, None)
    else (CloseNow(d, r, t1), None)
  }

  // ---------- listings ----------

  function CreateListing(db: Db, agent: AgentId, l: ListingId, r: RoomId, topicBlank: bool,
                         maxTurns: int, ttlSeconds: int, now: Time): (Db, Option<Error>)
  {
    if topicBlank then (db, Some(BadRequest))
    else if r in db.rooms || l in db.listings then (db, Some(Conflict))
    else
      var turns := if maxTurns <= 0 then 20 else maxTurns;
      var ttl := if ttlSeconds <= 0 then 900 else ttlSeconds;
      (db.(rooms := db.rooms[r := Room(agent, None, Open, 0, turns, now + ttl, None, None)],
           listings := db.listings[l := Listing(agent, turns, ttl, false, Some(r))]), None)
  }

  /** Attaches the second agent and activates the room, whatever state it was in. */
  function Attach(db: Db, l: ListingId, r: RoomId, agent: AgentId, now: Time): Db
    requires l in db.listings && r in db.rooms
  {
    var rm := db.rooms[r].(agentB := Some(agent), state := Active);
    db.(rooms := db.rooms[r := rm],
        listings := db.listings[l := db.listings[l].(connected := true)],
        deliveries := db.deliveries + TurnReadyNotice(rm, r, now))
  }

  function ConnectListing(db: Db, agent: AgentId, l: ListingId, newRoom: RoomId, now: Time): (Db, Option<Error>)
  {
    if l !in db.listings then (db, Some(NotFound)) else
    var item := db.listings[l];
    if item.owner == agent then (db, Some(Forbidden))
    else if item.connected then (db, Some(Conflict))
    else if item.room.None? then
      // Listings older than owner-first rooms have no room yet.
      if newRoom in db.rooms then (db, Some(Conflict))
      else
        var rm := Room(item.owner, None, Open, 0, item.maxTurns, now + item.ttlSeconds, None, None);
        (Attach(db.(rooms := db.rooms[newRoom := rm]), l, newRoom, agent, now), None)
    else if item.room.value !in db.rooms then (db, Some(NotFound))
    else if db.rooms[item.room.value].agentB.Some? then (db, Some(Conflict))
    else (Attach(db, l, item.room.value, agent, now), None)
  }

  /** `joined` is the set of agents that called join on this room on this server. */
  function JoinRoom(db: Db, cfg: Config, joined: set<AgentId>, agent: AgentId, r: RoomId, now: Time): (Db, Option<Error>)
  {
    if r !in db.rooms then (db, Some(NotFound)) else
    var d := Reconcile(db, cfg, r, now);
    var rm := d.rooms[r];
    if !rm.Participant(agent) then (d, Some(Forbidden))
    else if rm.state == Closed || rm.state == Purged then (d, Some(Gone))
    else if JoinActivates(rm, joined + {agent}) then
      var active := rm.(state := Active);
      (d.(rooms := d.rooms[r := active], deliveries := d.deliveries + TurnReadyNotice(active, r, now)), None)
    else (d, None)
  }

  predicate HasJoined(rm: Room, joined: set<AgentId>, x: AgentId)
  {
    x in joined
    || (if rm.agentB.None? then rm.state == Open && x == rm.agentA
        else rm.state == Active && rm.Participant(x))
  }

  predicate JoinActivates(rm: Room, joined: set<AgentId>)
  {
    && rm.state == Open
    && HasJoined(rm, joined, rm.agentA)
    && rm.agentB.Some? && HasJoined(rm, joined, rm.agentB.value)
  }

  // ---------- messages ----------

  datatype Verdict = Allowed | TooLarge | Violation

  /** `current`: the bundle hash given by the caller is the one built from the room just read. */
  datatype Draft = Draft(blank: bool, verdict: Verdict, current: bool)

  datatype SendResult = Accepted(state: RoomState, nextTurn: nat) | Rejected(error: Error)

  function CountBySender(ms: seq<Message>, x: AgentId, since: Time): nat
  {
    if ms == [] then 0
    else CountBySender(ms[..|ms|-1], x, since) +
         if ms[|ms|-1].sender == x && ms[|ms|-1].createdAt >= since then 1 else 0
  }

  function CountByRoom(ms: seq<Message>, r: RoomId, since: Time): nat
  {
    if ms == [] then 0
    else CountByRoom(ms[..|ms|-1], r, since) +
         if ms[|ms|-1].room == r && ms[|ms|-1].createdAt >= since then 1 else 0
  }

  /** The UNIQUE (room_id, turn) constraint. */
  predicate TurnTaken(ms: seq<Message>, r: RoomId, turn: nat)
  {
    exists i :: 0 <= i < |ms| && ms[i].room == r && ms[i].turn == turn
  }

  predicate Blocked(db: Db, x: AgentId, now: Time)
  {
    x in db.policy && db.policy[x].blockedUntil.Some? && now < db.policy[x].blockedUntil.value
  }

  /** One more violation in the agent's window; the third in a window blocks it. */
  function RecordViolation(policy: map<AgentId, Penalty>, x: AgentId, now: Time): map<AgentId, Penalty>
  {
    var before := if x in policy then policy[x] else Penalty(now, 0, None);
    var window := if now - before.windowStart > VIOLATION_WINDOW then Penalty(now, 0, None) else before;
    var count := window.count + 1;
    policy[x := Penalty(window.windowStart, count,
                        if count >= MAX_VIOLATIONS then Some(now + BLOCK_DURATION) else window.blockedUntil)]
  }

  /** The checks of SendMessage after reconciling, in the order the service makes them. */
  function SendRefusal(db: Db, agent: AgentId, r: RoomId, expectedTurn: int, draft: Draft, now: Time): Option<Error>
    requires r in db.rooms
  {
    var rm := db.rooms[r];
    if !rm.Participant(agent) then Some(Forbidden)
    else if rm.state == Closed || rm.state == Purged then Some(Gone)
    else if rm.state != Active then Some(RoomNotActive)
    else if now > rm.ttlAt then Some(Gone)
    else if expectedTurn != rm.turnIndex then Some(TurnMismatch)
    else if rm.NextActor() != Some(agent) then Some(TurnMismatch)
    else if draft.verdict == TooLarge then Some(PayloadTooLarge)
    else if Blocked(db, agent, now) then Some(PolicyBlocked)
    else if CountBySender(db.messages, agent, now - 60) >= MAX_PER_MINUTE_AGENT then Some(RateLimit)
    else if CountByRoom(db.messages, r, now - 60) >= MAX_PER_MINUTE_ROOM then Some(RateLimit)
    else if draft.verdict == Violation then Some(PolicyBlocked)
    else if !draft.current then Some(StaleBundleHash)
    else if TurnTaken(db.messages, r, rm.turnIndex) then Some(TurnMismatch)
    else None
  }

  function SendCommit(db: Db, agent: AgentId, r: RoomId, now: Time): Db
    requires r in db.rooms
  {
    var rm := db.rooms[r];
    var next := rm.(turnIndex := rm.turnIndex + 1);
    var spoken := db.messages + [Message(r, agent, rm.turnIndex, now)];
    if next.turnIndex >= rm.maxTurns then
      CloseNow(db.(rooms := db.rooms[r := next], messages := spoken), r, now)
    else
      db.(rooms := db.rooms[r := next],
          messages := spoken,
          deliveries := db.deliveries + TurnReadyNotice(next, r, now))
  }

  function SendMessage(db: Db, cfg: Config, agent: AgentId, r: RoomId, expectedTurn: int, draft: Draft,
                       t0: Time, t1: Time): (Db, SendResult)
  {
    if draft.blank then (db, Rejected(BadRequest))
    else if r !in db.rooms then (db, Rejected(NotFound)) else
    var d := Reconcile(db, cfg, r, t0);
    var refusal := SendRefusal(d, agent, r, expectedTurn, draft, t1);
    if refusal.Some? then (d, Rejected(refusal.value))
    else
      var done := SendCommit(d, agent, r, t1);
      (done, Accepted(done.rooms[r].state, done.rooms[r].turnIndex))
  }

  // ---------- room-scoped tokens ----------

  predicate HashTaken(ts: seq<Token>, h: TokenHash)
  {
    exists i :: 0 <= i < |ts| && ts[i].hash == h
  }

  /** Revokes the holder's earlier tokens and inserts the new one; a duplicate hash rolls both back. */
  function Issue(db: Db, agent: AgentId, r: RoomId, h: TokenHash, now: Time): (Db, Option<Error>)
  {
    if HashTaken(db.tokens, h) then (db, Some(Conflict))
    else (db.(tokens := RevokeAgent(db.tokens, r, agent, now) + [Token(h, r, agent, now + TOKEN_TTL, None)]), None)
  }

  function CreateAccessToken(db: Db, cfg: Config, agent: AgentId, r: RoomId, h: TokenHash, t0: Time, t1: Time): (Db, Option<Error>)
  {
    if r !in db.rooms then (db, Some(NotFound)) else
    var d := Reconcile(db, cfg, r, t0);
    if !d.rooms[r].Participant(agent) then (d, Some(Forbidden))
    else if d.rooms[r].state != Open && d.rooms[r].state != Active then (d, Some(Gone))
    else Issue(d, agent, r, h, t1)
  }

  /** One room of the recovery listing: a token only when it is this agent's turn in an active room. */
  function RecoverRoom(db: Db, cfg: Config, agent: AgentId, r: RoomId, h: TokenHash, t0: Time, t1: Time): (Db, Option<Error>)
  {
    if r !in db.rooms then (db, Some(NotFound)) else
    var d := Reconcile(db, cfg, r, t0);
    if d.rooms[r].Participant(agent) && d.rooms[r].state == Active && d.rooms[r].NextActor() == Some(agent)
    then Issue(d, agent, r, h, t1)
    else (d, None)
  }

  function FindToken(ts: seq<Token>, h: TokenHash): Option<Token>
  {
    if ts == [] then None
    else if ts[0].hash == h then Some(ts[0])
    else FindToken(ts[1..], h)
  }

  /** Whom a request acts as. */
  datatype Access = As(agent: AgentId) | Denied(error: Error)

  /**
   * Access to a room: a valid session is enough; otherwise a room token must be of this room and its
   * scope allow the action, and one that is about to expire is refreshed.
   */
  function AuthRoomAccess(db: Db, session: Option<AgentId>, h: TokenHash, r: RoomId, inScope: bool, now: Time): (Db, Access)
  {
    if session.Some? then (db, As(session.value)) else
    var found := FindToken(db.tokens, h);
    if found.None? || found.value.revokedAt.Some? || found.value.expiresAt <= now then (db, Denied(Unauthorized))
    else if found.value.room != r then (db, Denied(Forbidden))
    else if !inScope then (db, Denied(Forbidden))
    else if found.value.expiresAt - now <= REFRESH_THRESHOLD then
      (db.(tokens := Touch(db.tokens, h, now + TOKEN_TTL)), As(found.value.agent))
    else (db, As(found.value.agent))
  }

  // ---------- human viewers ----------

  function ViewerJoin(db: Db, cfg: Config, r: RoomId, v: ViewerId, codeValid: bool, now: Time): (Db, Option<Error>)
  {
    if r !in db.rooms then (db, Some(NotFound)) else
    var d := Reconcile(db, cfg, r, now);
    if d.rooms[r].state == Purged then (d, Some(Gone))
    else if !codeValid then (d, Some(Forbidden))
    else
      var row := if v in d.viewers then d.viewers[v].(lastHeartbeat := now, left := false) else Viewer(r, now, false);
      (d.(viewers := d.viewers[v := row]), None)
  }

  function ViewerHeartbeat(db: Db, r: RoomId, v: ViewerId, now: Time): (Db, Option<Error>)
  {
    if v !in db.viewers || db.viewers[v].room != r then (db, Some(NotFound))
    else if db.viewers[v].left then (db, Some(Gone))
    else (db.(viewers := db.viewers[v := db.viewers[v].(lastHeartbeat := now)]), None)
  }

  function ViewerLeave(db: Db, r: RoomId, v: ViewerId): (Db, Option<Error>)
  {
    if v !in db.viewers || db.viewers[v].room != r then (db, Some(NotFound))
    else (db.(viewers := db.viewers[v := db.viewers[v].(left := true)]), None)
  }
}
