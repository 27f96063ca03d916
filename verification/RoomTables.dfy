/** The tables of the Postgres store that the room service reads and writes, as values. */
module RoomTables {
  import opened Prelude
  import opened RoomLifecycle

  type AgentId = nat
  type RoomId = nat
  type ListingId = nat
  type TokenHash = nat
  type ViewerId = nat

  datatype Room = Room(
    agentA: AgentId,
    agentB: Option<AgentId>,
    state: RoomState,
    turnIndex: nat,
    maxTurns: nat,
    ttlAt: Time,
    closedAt: Option<Time>,
    purgedAt: Option<Time>)
  {
    predicate Participant(x: AgentId) { x == agentA || agentB == Some(x) }

    /** The agent whose turn number `turn` is: A on even turns, B on odd ones. */
    function Actor(turn: nat): AgentId
      requires agentB.Some?
    {
      if turn % 2 == 0 then agentA else agentB.value
    }

    function NextActor(): Option<AgentId>
    {
      if state != Open && state != Active then None
      else if turnIndex % 2 == 0 then Some(agentA)
      else agentB
    }

    function Participants(): multiset<AgentId>
    {
      if agentB.Some? && agentB.value != agentA then multiset{agentA, agentB.value} else multiset{agentA}
    }
  }

  datatype Listing = Listing(owner: AgentId, maxTurns: nat, ttlSeconds: int, connected: bool, room: Option<RoomId>)
  datatype Message = Message(room: RoomId, sender: AgentId, turn: nat, createdAt: Time)
  datatype Notice = TurnReady(turn: nat) | RoomClosed | RoomPurged
  datatype Delivery = Delivery(agent: AgentId, room: RoomId, notice: Notice, expiresAt: Time)
  datatype Token = Token(hash: TokenHash, room: RoomId, agent: AgentId, expiresAt: Time, revokedAt: Option<Time>)
  datatype Penalty = Penalty(windowStart: Time, count: nat, blockedUntil: Option<Time>)
  datatype Viewer = Viewer(room: RoomId, lastHeartbeat: Time, left: bool)

  /** Row order is insertion order; a delivery's sequence number is its position. */
  datatype Db = Db(
    rooms: map<RoomId, Room>,
    listings: map<ListingId, Listing>,
    messages: seq<Message>,
    deliveries: seq<Delivery>,
    tokens: seq<Token>,
    viewers: map<ViewerId, Viewer>,
    policy: map<AgentId, Penalty>)

  // ---------- what the tables say about one room ----------

  datatype Wake = Wake(turn: nat, agent: AgentId)

  /** The turn_ready deliveries of a room, in sequence order. */
  function Wakes(ds: seq<Delivery>, r: RoomId): seq<Wake>
  {
    if ds == [] then []
    else
      var d := ds[|ds|-1];
      Wakes(ds[..|ds|-1], r) +
      if d.room == r && d.notice.TurnReady? then [Wake(d.notice.turn, d.agent)] else []
  }

  /** Who has been sent the terminal notice `n` about a room, and how often. */
  function Notified(ds: seq<Delivery>, r: RoomId, n: Notice): multiset<AgentId>
  {
    if ds == [] then multiset{}
    else
      var d := ds[|ds|-1];
      Notified(ds[..|ds|-1], r, n) +
      if d.room == r && d.notice == n then multiset{d.agent} else multiset{}
  }

  /** The messages of a room as (turn, sender), in insertion order. */
  function Said(ms: seq<Message>, r: RoomId): seq<Wake>
  {
    if ms == [] then []
    else
      var m := ms[|ms|-1];
      Said(ms[..|ms|-1], r) + if m.room == r then [Wake(m.turn, m.sender)] else []
  }

  /** The holders of unrevoked tokens for a room. */
  function Live(ts: seq<Token>, r: RoomId): multiset<AgentId>
  {
    if ts == [] then multiset{}
    else
      var t := ts[|ts|-1];
      Live(ts[..|ts|-1], r) + if t.room == r && t.revokedAt.None? then multiset{t.agent} else multiset{}
  }

  datatype Rows = Rows(
    wakes: seq<Wake>, said: seq<Wake>,
    closedTo: multiset<AgentId>, purgedTo: multiset<AgentId>,
    live: multiset<AgentId>)

  function RowsOf(db: Db, r: RoomId): Rows
  {
    Rows(Wakes(db.deliveries, r), Said(db.messages, r),
         Notified(db.deliveries, r, RoomClosed), Notified(db.deliveries, r, RoomPurged),
         Live(db.tokens, r))
  }

  const NO_ROWS := Rows([], [], multiset{}, multiset{}, multiset{})

  // ---------- how the projections follow inserts, updates and deletes ----------

  lemma AppendDelivery(ds: seq<Delivery>, d: Delivery, r: RoomId)
    ensures Wakes(ds + [d], r)
         == Wakes(ds, r) + if d.room == r && d.notice.TurnReady? then [Wake(d.notice.turn, d.agent)] else []
    ensures forall n ::
      Notified(ds + [d], r, n)
      == Notified(ds, r, n) + (if d.room == r && d.notice == n then multiset{d.agent} else multiset{})
  {
    assert (ds + [d])[..|ds|] == ds;
  }

  lemma AppendMessage(ms: seq<Message>, m: Message, r: RoomId)
    ensures Said(ms + [m], r) == Said(ms, r) + if m.room == r then [Wake(m.turn, m.sender)] else []
  {
    assert (ms + [m])[..|ms|] == ms;
  }

  lemma AppendToken(ts: seq<Token>, t: Token, r: RoomId)
    ensures Live(ts + [t], r)
         == Live(ts, r) + if t.room == r && t.revokedAt.None? then multiset{t.agent} else multiset{}
  {
    assert (ts + [t])[..|ts|] == ts;
  }

  /** `UPDATE room_scoped_tokens SET revoked_at` for one room and agent, unrevoked rows only. */
  function RevokeAgent(ts: seq<Token>, r: RoomId, x: AgentId, at: Time): (out: seq<Token>)
    ensures |out| == |ts|
  {
    seq(|ts|, i requires 0 <= i < |ts| => Revoked(ts[i], r, x, at))
  }

  function Revoked(t: Token, r: RoomId, x: AgentId, at: Time): Token
  {
    if t.room == r && t.agent == x && t.revokedAt.None? then t.(revokedAt := Some(at)) else t
  }

  lemma ClearAfterAdd(m: multiset<AgentId>, y: AgentId, x: AgentId)
    ensures (m + multiset{y})[x := 0] == if y == x then m[x := 0] else m[x := 0] + multiset{y}
  {}

  lemma RevokeOneMore(ts: seq<Token>, r: RoomId, x: AgentId, at: Time)
    requires ts != []
    ensures var before, t := ts[..|ts|-1], ts[|ts|-1];
            RevokeAgent(ts, r, x, at) == RevokeAgent(before, r, x, at) + [Revoked(t, r, x, at)] && ts == before + [t]
  {}

  lemma {:induction false} RevokeAgentClearsLive(ts: seq<Token>, r: RoomId, x: AgentId, at: Time, q: RoomId)
    ensures Live(RevokeAgent(ts, r, x, at), q) == if q == r then Live(ts, q)[x := 0] else Live(ts, q)
  {
    if ts == [] {
      assert Live([], q)[x := 0] == multiset{};
    } else {
      hide Live, RevokeAgent;
      var before, t := ts[..|ts|-1], ts[|ts|-1];
      RevokeAgentClearsLive(before, r, x, at, q);
      RevokeOneMore(ts, r, x, at);
      AppendToken(before, t, q);
      AppendToken(RevokeAgent(before, r, x, at), Revoked(t, r, x, at), q);
      ClearAfterAdd(Live(before, q), t.agent, x);
    }
  }

  /** `UPDATE room_scoped_tokens SET expires_at` where the hash matches and the row is unrevoked. */
  function Touch(ts: seq<Token>, h: TokenHash, until: Time): (out: seq<Token>)
    ensures |out| == |ts|
  {
    seq(|ts|, i requires 0 <= i < |ts| =>
      if ts[i].hash == h && ts[i].revokedAt.None? then ts[i].(expiresAt := until) else ts[i])
  }

  lemma {:induction false} TouchRevivesNothing(ts: seq<Token>, h: TokenHash, until: Time, q: RoomId)
    ensures Live(Touch(ts, h, until), q) == Live(ts, q)
  {
    if ts != [] {
      TouchRevivesNothing(ts[..|ts|-1], h, until, q);
      assert Touch(ts, h, until)[..|ts|-1] == Touch(ts[..|ts|-1], h, until);
    }
  }

  /** `DELETE FROM messages WHERE room_id = r`. */
  function WithoutRoom(ms: seq<Message>, r: RoomId): seq<Message>
  {
    if ms == [] then []
    else
      var m := ms[|ms|-1];
      WithoutRoom(ms[..|ms|-1], r) + if m.room == r then [] else [m]
  }

  lemma {:induction false} WithoutRoomEmptiesOneRoom(ms: seq<Message>, r: RoomId, q: RoomId)
    ensures Said(WithoutRoom(ms, r), q) == if q == r then [] else Said(ms, q)
  {
    if ms != [] {
      var before := ms[..|ms|-1];
      WithoutRoomEmptiesOneRoom(before, r, q);
      AppendMessage(WithoutRoom(before, r), ms[|ms|-1], q);
      assert WithoutRoom(ms, r) == WithoutRoom(before, r) + (if ms[|ms|-1].room == r then [] else [ms[|ms|-1]]);
      assert WithoutRoom(before, r) + [] == WithoutRoom(before, r);
    }
  }
}
