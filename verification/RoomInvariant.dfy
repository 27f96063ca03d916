/** What every room operation keeps, and what one operation may change. */
module RoomInvariant {
  import opened Prelude
  import opened RoomLifecycle
  import opened RoomTables
  import opened RoomOps

  /** Entries 0 .. n-1, alternating between two agents, `a` first. */
  function Alternating(a: AgentId, b: AgentId, n: nat): (s: seq<Wake>)
    ensures |s| == n
    ensures forall k :: 0 <= k < n ==> s[k] == Wake(k, if k % 2 == 0 then a else b)
  {
    if n == 0 then [] else Alternating(a, b, n - 1) + [Wake(n - 1, if (n - 1) % 2 == 0 then a else b)]
  }

  /** One wake per turn so far; the closing turn has none to announce. */
  function ExpectedWakes(rm: Room): seq<Wake>
    requires rm.agentB.Some? && rm.maxTurns >= 1
  {
    Alternating(rm.agentA, rm.agentB.value, Min(rm.turnIndex, rm.maxTurns - 1) + 1)
  }

  /** Turns 0 .. turnIndex-1, spoken alternately by A and B. */
  function ExpectedTurns(rm: Room): seq<Wake>
    requires rm.agentB.Some?
  {
    Alternating(rm.agentA, rm.agentB.value, rm.turnIndex)
  }

  ghost predicate RoomOk(rm: Room, rows: Rows)
  {
    && 1 <= rm.maxTurns && rm.turnIndex <= rm.maxTurns
    && (rm.agentB.None? ==> rm.state != Active && rm.turnIndex == 0 && rows.wakes == [] && rows.said == [])
    && (rm.agentB.Some? ==>
          && rm.state != Open
          && rm.agentB.value != rm.agentA
          && rows.wakes == ExpectedWakes(rm)
          && rows.said == (if rm.state == Purged then [] else ExpectedTurns(rm)))
    && (rm.state == Active ==> rm.turnIndex < rm.maxTurns)
    && (rm.state == Closed ==> rm.closedAt.Some?)
    && (forall x :: rows.live[x] <= 1 && (rows.live[x] > 0 ==> rm.Participant(x)))
    && (rm.state == Closed || rm.state == Purged ==>
          && rows.live == multiset{}
          && forall x :: rm.Participant(x) ==> rows.closedTo[x] >= 1)
  }

  ghost predicate ListingOk(l: Listing, rooms: map<RoomId, Room>)
  {
    && 1 <= l.maxTurns
    && (l.room.Some? ==> l.room.value in rooms && rooms[l.room.value].agentA == l.owner)
  }

  ghost predicate Inv(db: Db)
  {
    && (forall r :: r in db.rooms ==> RoomOk(db.rooms[r], RowsOf(db, r)))
    && (forall r :: r !in db.rooms ==> RowsOf(db, r) == NO_ROWS)
    && ListingsOk(db)
  }

  ghost predicate ListingsOk(db: Db)
  {
    forall l :: l in db.listings ==> ListingOk(db.listings[l], db.rooms)
  }

  predicate Enters(before: Room, after: Room, s: RoomState)
  {
    before.state != s && after.state == s
  }

  /** What one operation may do to an existing room. */
  ghost predicate RoomStep(before: Room, rows: Rows, after: Room, rows': Rows)
  {
    && after.agentA == before.agentA && after.maxTurns == before.maxTurns
    && (before.agentB.Some? ==> after.agentB == before.agentB)
    && before.turnIndex <= after.turnIndex <= before.turnIndex + 1
    && (after.agentB == before.agentB && after.state != before.state ==> before.state.CanTransitionTo(after.state))
    && (after.agentB != before.agentB ==> after.state == Active)
    && (Enters(before, after, Purged) ==> before.state == Closed && rows'.said == [])
    && rows'.closedTo == rows.closedTo + (if Enters(before, after, Closed) then after.Participants() else multiset{})
    && rows'.purgedTo == rows.purgedTo + (if Enters(before, after, Purged) then after.Participants() else multiset{})
  }

  /** A room that an operation creates has told nobody of its end. */
  ghost predicate Born(rm: Room, rows: Rows)
  {
    && (rm.state == Open || rm.state == Active)
    && rows.closedTo == multiset{} && rows.purgedTo == multiset{}
  }

  ghost predicate Steps(db: Db, db': Db)
  {
    && db'.policy == db.policy
    && (forall r :: r in db.rooms ==>
          r in db'.rooms && RoomStep(db.rooms[r], RowsOf(db, r), db'.rooms[r], RowsOf(db', r)))
    && (forall r :: r !in db.rooms && r in db'.rooms ==> Born(db'.rooms[r], RowsOf(db', r)))
  }

  /** Every other room and its rows are untouched. */
  ghost predicate OnlyRoom(db: Db, db': Db, r: RoomId)
  {
    && db'.policy == db.policy
    && db'.rooms.Keys == db.rooms.Keys + {r}
    && (forall q :: q in db.rooms && q != r ==> db'.rooms[q] == db.rooms[q])
    && (forall q :: q != r ==> RowsOf(db', q) == RowsOf(db, q))
  }

  lemma NothingIsAStep(rm: Room, rows: Rows)
    ensures RoomStep(rm, rows, rm, rows)
  {}

  lemma OneRoomSuffices(db: Db, db': Db, r: RoomId, rm: Room, rows: Rows, rm': Room, rows': Rows)
    requires Inv(db) && OnlyRoom(db, db', r) && ListingsOk(db')
    requires rm' == db'.rooms[r] && rows' == RowsOf(db', r)
    requires r in db.rooms ==> rm == db.rooms[r] && rows == RowsOf(db, r) && RoomStep(rm, rows, rm', rows')
    requires r !in db.rooms ==> Born(rm', rows')
    requires RoomOk(rm', rows')
    ensures Inv(db') && Steps(db, db')
  {
    hide RowsOf, RoomOk, RoomStep, Born, ListingOk;
    forall q | q in db.rooms
      ensures q in db'.rooms && RoomStep(db.rooms[q], RowsOf(db, q), db'.rooms[q], RowsOf(db', q))
    {
      if q == r {
        assert RoomStep(rm, rows, rm', rows');
      } else {
        assert RowsOf(db', q) == RowsOf(db, q);
        NothingIsAStep(db.rooms[q], RowsOf(db, q));
      }
    }
    forall q
      ensures q in db'.rooms ==> RoomOk(db'.rooms[q], RowsOf(db', q))
      ensures q !in db'.rooms ==> RowsOf(db', q) == NO_ROWS
    {
      assert q != r ==> RowsOf(db', q) == RowsOf(db, q);
      assert q != r ==> (q in db'.rooms <==> q in db.rooms);
    }
  }

  // ---------- the rows each kind of insert adds ----------

  lemma TerminalRows(ds: seq<Delivery>, rm: Room, r: RoomId, n: Notice, at: Time, q: RoomId)
    requires n == RoomClosed || n == RoomPurged
    ensures Wakes(ds + Terminal(rm, r, n, at), q) == Wakes(ds, q)
    ensures forall m :: m == RoomClosed || m == RoomPurged ==>
      Notified(ds + Terminal(rm, r, n, at), q, m)
      == Notified(ds, q, m) + (if q == r && m == n then rm.Participants() else multiset{})
  {
    hide Wakes, Notified;
    var out := Terminal(rm, r, n, at);
    AppendDelivery(ds, out[0], q);
    if |out| == 2 {
      AppendDelivery(ds + [out[0]], out[1], q);
      assert ds + out == ds + [out[0]] + [out[1]];
      assert multiset{rm.agentA} + multiset{rm.agentB.value} == multiset{rm.agentA, rm.agentB.value};
    } else {
      assert out == [out[0]];
    }
  }

  lemma TurnReadyRows(ds: seq<Delivery>, rm: Room, r: RoomId, at: Time, q: RoomId)
    ensures Wakes(ds + TurnReadyNotice(rm, r, at), q)
         == Wakes(ds, q) + if q == r && rm.state == Active && rm.NextActor().Some?
                           then [Wake(rm.turnIndex, rm.NextActor().value)] else []
    ensures Notified(ds + TurnReadyNotice(rm, r, at), q, RoomClosed) == Notified(ds, q, RoomClosed)
    ensures Notified(ds + TurnReadyNotice(rm, r, at), q, RoomPurged) == Notified(ds, q, RoomPurged)
  {
    var out := TurnReadyNotice(rm, r, at);
    if out == [] {
      assert ds + out == ds;
    } else {
      assert out == [out[0]];
      AppendDelivery(ds, out[0], q);
    }
  }

  lemma RevokedRows(ts: seq<Token>, r: RoomId, rm: Room, at: Time, q: RoomId)
    ensures q != r ==> Live(RevokeParticipants(ts, r, rm, at), q) == Live(ts, q)
    ensures q == r && (forall x :: Live(ts, r)[x] > 0 ==> rm.Participant(x))
            ==> Live(RevokeParticipants(ts, r, rm, at), q) == multiset{}
  {
    hide Live, RevokeAgent;
    var noA := RevokeAgent(ts, r, rm.agentA, at);
    RevokeAgentClearsLive(ts, r, rm.agentA, at, q);
    if rm.agentB.Some? {
      RevokeAgentClearsLive(noA, r, rm.agentB.value, at, q);
    }
    var left := Live(RevokeParticipants(ts, r, rm, at), q);
    if q == r && forall x :: Live(ts, r)[x] > 0 ==> rm.Participant(x) {
      forall x ensures left[x] == 0 {
        assert Live(ts, r)[x] > 0 ==> rm.Participant(x);
      }
      assert left == multiset{};
    }
  }

  // ---------- closing ----------

  function RowsClosed(rm: Room, rows: Rows): Rows
  {
    rows.(closedTo := rows.closedTo + rm.Participants(), live := multiset{})
  }

  ghost predicate TokensHeldByParticipants(db: Db, r: RoomId)
    requires r in db.rooms
  {
    forall x :: Live(db.tokens, r)[x] > 0 ==> db.rooms[r].Participant(x)
  }

  lemma CloseRows(db: Db, r: RoomId, at: Time)
    requires r in db.rooms && TokensHeldByParticipants(db, r)
    ensures RowsOf(CloseNow(db, r, at), r) == RowsClosed(db.rooms[r], RowsOf(db, r))
    ensures OnlyRoom(db, CloseNow(db, r, at), r)
  {
    hide Wakes, Said, Live, Notified, Terminal, RevokeParticipants;
    var db' := CloseNow(db, r, at);
    var rm := db'.rooms[r];
    assert rm.Participants() == db.rooms[r].Participants();
    assert forall x :: rm.Participant(x) <==> db.rooms[r].Participant(x);
    forall q
      ensures RowsOf(db', q) == if q == r then RowsClosed(rm, RowsOf(db, q)) else RowsOf(db, q)
    {
      TerminalRows(db.deliveries, rm, r, RoomClosed, at, q);
      RevokedRows(db.tokens, r, rm, at, q);
    }
  }

  lemma CloseOk(rm: Room, rows: Rows, at: Time)
    requires RoomOk(rm, rows) && (rm.state == Open || rm.state == Active)
    ensures var rm' := rm.(state := Closed, closedAt := Some(at));
            RoomOk(rm', RowsClosed(rm, rows)) && RoomStep(rm, rows, rm', RowsClosed(rm, rows))
  {}

  lemma CloseKeeps(db: Db, r: RoomId, at: Time)
    requires Inv(db) && r in db.rooms && (db.rooms[r].state == Open || db.rooms[r].state == Active)
    ensures Inv(CloseNow(db, r, at)) && Steps(db, CloseNow(db, r, at))
  {
    hide Wakes, Said, Live, Notified, Terminal, RevokeParticipants;
    var db' := CloseNow(db, r, at);
    var rm, rows := db.rooms[r], RowsOf(db, r);
    assert RoomOk(rm, rows);
    CloseOk(rm, rows, at);
    CloseRows(db, r, at);
    ListingsFollow(db, db');
    OneRoomSuffices(db, db', r, rm, rows, db'.rooms[r], RowsOf(db', r));
  }

  /** Rooms keep their first agent, so listings stay in step with them. */
  lemma ListingsFollow(db: Db, db': Db)
    requires ListingsOk(db) && db.rooms.Keys <= db'.rooms.Keys
    requires forall r :: r in db.rooms ==> db'.rooms[r].agentA == db.rooms[r].agentA
    requires forall l :: l in db'.listings ==>
      l in db.listings && db'.listings[l].(connected := db.listings[l].connected) == db.listings[l]
    ensures ListingsOk(db')
  {
    forall l | l in db'.listings ensures ListingOk(db'.listings[l], db'.rooms) {
      assert ListingOk(db.listings[l], db.rooms);
    }
  }

  // ---------- purging ----------

  function RowsPurged(rm: Room, rows: Rows): Rows
  {
    rows.(said := [], purgedTo := rows.purgedTo + rm.Participants(), live := multiset{})
  }

  lemma PurgeRows(db: Db, r: RoomId, at: Time)
    requires r in db.rooms && TokensHeldByParticipants(db, r)
    ensures RowsOf(PurgeNow(db, r, at), r) == RowsPurged(db.rooms[r], RowsOf(db, r))
    ensures OnlyRoom(db, PurgeNow(db, r, at), r)
  {
    hide Wakes, Said, Live, Notified, Terminal, RevokeParticipants;
    var db' := PurgeNow(db, r, at);
    var rm := db'.rooms[r];
    assert rm.Participants() == db.rooms[r].Participants();
    assert forall x :: rm.Participant(x) <==> db.rooms[r].Participant(x);
    forall q
      ensures RowsOf(db', q) == if q == r then RowsPurged(rm, RowsOf(db, q)) else RowsOf(db, q)
    {
      TerminalRows(db.deliveries, rm, r, RoomPurged, at, q);
      RevokedRows(db.tokens, r, rm, at, q);
      WithoutRoomEmptiesOneRoom(db.messages, r, q);
    }
  }

  lemma PurgeOk(rm: Room, rows: Rows, at: Time)
    requires RoomOk(rm, rows) && rm.state == Closed
    ensures var rm' := rm.(state := Purged, purgedAt := Some(at));
            RoomOk(rm', RowsPurged(rm, rows)) && RoomStep(rm, rows, rm', RowsPurged(rm, rows))
  {}

  lemma PurgeKeeps(db: Db, r: RoomId, at: Time)
    requires Inv(db) && r in db.rooms && db.rooms[r].state == Closed
    ensures Inv(PurgeNow(db, r, at)) && Steps(db, PurgeNow(db, r, at))
  {
    hide Wakes, Said, Live, Notified, Terminal, RevokeParticipants;
    var db' := PurgeNow(db, r, at);
    var rm, rows := db.rooms[r], RowsOf(db, r);
    assert RoomOk(rm, rows);
    PurgeOk(rm, rows, at);
    PurgeRows(db, r, at);
    ListingsFollow(db, db');
    OneRoomSuffices(db, db', r, rm, rows, db'.rooms[r], RowsOf(db', r));
  }

  /** Reconciling changes nothing, closes a room whose time is up, or purges a closed one. */
  lemma ReconcileIs(db: Db, cfg: Config, r: RoomId, now: Time)
    requires r in db.rooms && (db.rooms[r].state == Closed ==> db.rooms[r].closedAt.Some?)
    ensures var d, rm := Reconcile(db, cfg, r, now), db.rooms[r];
            || d == db
            || ((rm.state == Open || rm.state == Active) && d == CloseNow(db, r, now) && r in d.rooms && d.rooms[r].state == Closed)
            || (rm.state == Closed && d == PurgeNow(db, r, now) && r in d.rooms && d.rooms[r].state == Purged)
  {
    hide PurgeDue, Terminal, RevokeParticipants;
    var rm := db.rooms[r];
    if rm.state == Closed {
      assert rm.(closedAt := Some(rm.closedAt.value)) == rm;
      assert db.rooms[r := rm] == db.rooms;
    }
  }

  lemma ReconcileKeeps(db: Db, cfg: Config, r: RoomId, now: Time)
    requires Inv(db) && r in db.rooms
    ensures Inv(Reconcile(db, cfg, r, now)) && Steps(db, Reconcile(db, cfg, r, now))
    ensures r in Reconcile(db, cfg, r, now).rooms
    ensures var s := Reconcile(db, cfg, r, now).rooms[r].state;
            s == Open || s == Active ==> Reconcile(db, cfg, r, now) == db
  {
    assert RoomOk(db.rooms[r], RowsOf(db, r));
    UnchangedKeeps(db, db);
    hide Inv, Steps, RowsOf, Reconcile, CloseNow, PurgeNow;
    ReconcileIs(db, cfg, r, now);
    hide RoomOk;
    var s := db.rooms[r].state;
    if s == Open || s == Active {
      CloseKeeps(db, r, now);
    } else if s == Closed {
      PurgeKeeps(db, r, now);
    }
  }

  /** Viewers and token expiry do not matter to the invariant. */
  lemma UnchangedKeeps(db: Db, db': Db)
    requires Inv(db) && db'.rooms == db.rooms && db'.listings == db.listings && db'.policy == db.policy
    requires forall r :: RowsOf(db', r) == RowsOf(db, r)
    ensures Inv(db') && Steps(db, db')
  {}

  // ---------- creating and attaching ----------

  lemma CreateKeeps(db: Db, r: RoomId, rm: Room)
    requires Inv(db) && r !in db.rooms && rm.state == Open && rm.agentB.None? && rm.turnIndex == 0 && rm.maxTurns >= 1
    ensures Inv(db.(rooms := db.rooms[r := rm])) && Steps(db, db.(rooms := db.rooms[r := rm]))
  {
    var db' := db.(rooms := db.rooms[r := rm]);
    assert forall q :: RowsOf(db', q) == RowsOf(db, q);
    ListingsFollow(db, db');
    OneRoomSuffices(db, db', r, rm, NO_ROWS, rm, NO_ROWS);
  }

  lemma AttachRows(db: Db, l: ListingId, r: RoomId, agent: AgentId, now: Time)
    requires l in db.listings && r in db.rooms && db.rooms[r].turnIndex == 0
    ensures RowsOf(Attach(db, l, r, agent, now), r)
         == RowsOf(db, r).(wakes := RowsOf(db, r).wakes + [Wake(0, db.rooms[r].agentA)])
    ensures OnlyRoom(db, Attach(db, l, r, agent, now), r)
  {
    hide Wakes, Said, Live, Notified, Terminal, RevokeParticipants;
    var db' := Attach(db, l, r, agent, now);
    forall q
      ensures q != r ==> RowsOf(db', q) == RowsOf(db, q)
      ensures q == r ==> RowsOf(db', q) == RowsOf(db, q).(wakes := RowsOf(db, q).wakes + [Wake(0, db.rooms[r].agentA)])
    {
      TurnReadyRows(db.deliveries, db'.rooms[r], r, now, q);
    }
  }

  lemma AttachOk(rm: Room, rows: Rows, agent: AgentId)
    requires RoomOk(rm, rows) && rm.agentB.None? && rm.agentA != agent
    ensures var rm' := rm.(agentB := Some(agent), state := Active);
            var rows' := rows.(wakes := rows.wakes + [Wake(0, rm.agentA)]);
            RoomOk(rm', rows') && RoomStep(rm, rows, rm', rows')
  {
    assert [] + [Wake(0, rm.agentA)] == Alternating(rm.agentA, agent, 1);
  }

  lemma AttachKeeps(db: Db, l: ListingId, r: RoomId, agent: AgentId, now: Time)
    requires Inv(db) && l in db.listings && r in db.rooms
    requires db.rooms[r].agentB.None? && db.rooms[r].agentA != agent
    ensures Inv(Attach(db, l, r, agent, now)) && Steps(db, Attach(db, l, r, agent, now))
  {
    hide Wakes, Said, Live, Notified, Terminal, RevokeParticipants;
    var db' := Attach(db, l, r, agent, now);
    var rm, rows := db.rooms[r], RowsOf(db, r);
    assert RoomOk(rm, rows);
    AttachOk(rm, rows, agent);
    AttachRows(db, l, r, agent, now);
    ListingsFollow(db, db');
    OneRoomSuffices(db, db', r, rm, rows, db'.rooms[r], RowsOf(db', r));
  }

  // ---------- speaking ----------

  /** A turn in the middle of the conversation wakes the other agent; the last one closes the room. */
  function RowsSpoken(rm: Room, rows: Rows): Rows
    requires rm.agentB.Some?
  {
    var said := rows.said + [Wake(rm.turnIndex, rm.Actor(rm.turnIndex))];
    if rm.turnIndex + 1 >= rm.maxTurns then RowsClosed(rm, rows.(said := said))
    else rows.(said := said, wakes := rows.wakes + [Wake(rm.turnIndex + 1, rm.Actor(rm.turnIndex + 1))])
  }

  lemma LastTurnRows(db: Db, agent: AgentId, r: RoomId, now: Time)
    requires r in db.rooms && TokensHeldByParticipants(db, r)
    requires db.rooms[r].agentB.Some? && db.rooms[r].turnIndex + 1 >= db.rooms[r].maxTurns
    requires agent == db.rooms[r].Actor(db.rooms[r].turnIndex)
    ensures RowsOf(SendCommit(db, agent, r, now), r) == RowsSpoken(db.rooms[r], RowsOf(db, r))
    ensures OnlyRoom(db, SendCommit(db, agent, r, now), r)
  {
    hide Wakes, Said, Live, Notified, Terminal, RevokeParticipants;
    var rm := db.rooms[r];
    var next := rm.(turnIndex := rm.turnIndex + 1);
    var spoken := db.(rooms := db.rooms[r := next], messages := db.messages + [Message(r, agent, rm.turnIndex, now)]);
    forall q
      ensures q != r ==> RowsOf(spoken, q) == RowsOf(db, q)
      ensures q == r ==> RowsOf(spoken, q) == RowsOf(db, q).(said := RowsOf(db, q).said + [Wake(rm.turnIndex, agent)])
    {
      AppendMessage(db.messages, Message(r, agent, rm.turnIndex, now), q);
    }
    assert forall x :: rm.Participant(x) <==> next.Participant(x);
    assert next.Participants() == rm.Participants();
    CloseRows(spoken, r, now);
  }

  lemma MiddleTurnRows(db: Db, agent: AgentId, r: RoomId, now: Time)
    requires r in db.rooms && db.rooms[r].state == Active
    requires db.rooms[r].agentB.Some? && db.rooms[r].turnIndex + 1 < db.rooms[r].maxTurns
    requires agent == db.rooms[r].Actor(db.rooms[r].turnIndex)
    ensures RowsOf(SendCommit(db, agent, r, now), r) == RowsSpoken(db.rooms[r], RowsOf(db, r))
    ensures OnlyRoom(db, SendCommit(db, agent, r, now), r)
  {
    hide Wakes, Said, Live, Notified, Terminal, RevokeParticipants;
    var rm := db.rooms[r];
    var db' := SendCommit(db, agent, r, now);
    forall q
      ensures RowsOf(db', q) == if q == r then RowsSpoken(rm, RowsOf(db, q)) else RowsOf(db, q)
    {
      AppendMessage(db.messages, Message(r, agent, rm.turnIndex, now), q);
      TurnReadyRows(db.deliveries, db'.rooms[r], r, now, q);
    }
  }

  /** The room's row after its current turn was spoken. */
  function SpokenRoom(rm: Room, now: Time): Room
  {
    var next := rm.(turnIndex := rm.turnIndex + 1);
    if next.turnIndex >= rm.maxTurns then next.(state := Closed, closedAt := Some(now)) else next
  }

  lemma SpeakOk(rm: Room, rows: Rows, now: Time)
    requires RoomOk(rm, rows) && rm.state == Active
    ensures rm.agentB.Some? && RoomOk(SpokenRoom(rm, now), RowsSpoken(rm, rows))
    ensures RoomStep(rm, rows, SpokenRoom(rm, now), RowsSpoken(rm, rows))
  {}

  lemma TokensAreHeld(db: Db, r: RoomId)
    requires r in db.rooms && RoomOk(db.rooms[r], RowsOf(db, r))
    ensures TokensHeldByParticipants(db, r)
  {}

  /** What the checks before a commit guarantee about the sender. */
  lemma SenderIsNext(db: Db, agent: AgentId, r: RoomId, expectedTurn: int, draft: Draft, now: Time)
    requires r in db.rooms && RoomOk(db.rooms[r], RowsOf(db, r)) && SendRefusal(db, agent, r, expectedTurn, draft, now).None?
    ensures var rm := db.rooms[r];
            rm.state == Active && rm.agentB.Some? && agent == rm.Actor(rm.turnIndex)
  {
    hide RowsOf, CountBySender, CountByRoom, TurnTaken, Blocked;
  }

  lemma CommitShape(db: Db, agent: AgentId, r: RoomId, now: Time)
    requires r in db.rooms && ListingsOk(db)
    ensures var db' := SendCommit(db, agent, r, now);
            r in db'.rooms && db'.rooms[r] == SpokenRoom(db.rooms[r], now) && ListingsOk(db')
  {
    hide Terminal, RevokeParticipants, TurnReadyNotice, ListingsOk;
    ListingsFollow(db, SendCommit(db, agent, r, now));
  }

  lemma SpeakRows(db: Db, agent: AgentId, r: RoomId, now: Time)
    requires r in db.rooms && RoomOk(db.rooms[r], RowsOf(db, r)) && db.rooms[r].state == Active
    requires db.rooms[r].agentB.Some? && agent == db.rooms[r].Actor(db.rooms[r].turnIndex)
    ensures RowsOf(SendCommit(db, agent, r, now), r) == RowsSpoken(db.rooms[r], RowsOf(db, r))
    ensures OnlyRoom(db, SendCommit(db, agent, r, now), r)
  {
    TokensAreHeld(db, r);
    hide RowsOf, RoomOk, SendCommit, RowsSpoken, OnlyRoom, TokensHeldByParticipants;
    if db.rooms[r].turnIndex + 1 >= db.rooms[r].maxTurns {
      LastTurnRows(db, agent, r, now);
    } else {
      MiddleTurnRows(db, agent, r, now);
    }
  }

  lemma SendKeeps(db: Db, agent: AgentId, r: RoomId, expectedTurn: int, draft: Draft, now: Time)
    requires Inv(db) && r in db.rooms && SendRefusal(db, agent, r, expectedTurn, draft, now).None?
    ensures Inv(SendCommit(db, agent, r, now)) && Steps(db, SendCommit(db, agent, r, now))
  {
    assert RoomOk(db.rooms[r], RowsOf(db, r)) && ListingsOk(db);
    hide *;
    var db' := SendCommit(db, agent, r, now);
    var rm, rows := db.rooms[r], RowsOf(db, r);
    SenderIsNext(db, agent, r, expectedTurn, draft, now);
    CommitShape(db, agent, r, now);
    SpeakOk(rm, rows, now);
    SpeakRows(db, agent, r, now);
    OneRoomSuffices(db, db', r, rm, rows, db'.rooms[r], RowsOf(db', r));
  }

  // ---------- tokens ----------

  lemma IssueRows(db: Db, agent: AgentId, r: RoomId, h: TokenHash, now: Time)
    requires r in db.rooms && !HashTaken(db.tokens, h)
    ensures RowsOf(Issue(db, agent, r, h, now).0, r)
         == RowsOf(db, r).(live := RowsOf(db, r).live[agent := 0] + multiset{agent})
    ensures OnlyRoom(db, Issue(db, agent, r, h, now).0, r)
  {
    hide Wakes, Said, Live, Notified, Terminal, RevokeParticipants;
    var db' := Issue(db, agent, r, h, now).0;
    forall q
      ensures q != r ==> RowsOf(db', q) == RowsOf(db, q)
      ensures q == r ==> Live(db'.tokens, q) == Live(db.tokens, q)[agent := 0] + multiset{agent}
    {
      RevokeAgentClearsLive(db.tokens, r, agent, now, q);
      AppendToken(RevokeAgent(db.tokens, r, agent, now), Token(h, r, agent, now + TOKEN_TTL, None), q);
    }
  }

  lemma IssueOk(rm: Room, rows: Rows, agent: AgentId)
    requires RoomOk(rm, rows) && rm.Participant(agent) && (rm.state == Open || rm.state == Active)
    ensures var rows' := rows.(live := rows.live[agent := 0] + multiset{agent});
            RoomOk(rm, rows') && RoomStep(rm, rows, rm, rows')
  {}

  lemma IssueKeeps(db: Db, agent: AgentId, r: RoomId, h: TokenHash, now: Time)
    requires Inv(db) && r in db.rooms && db.rooms[r].Participant(agent)
    requires db.rooms[r].state == Open || db.rooms[r].state == Active
    ensures Inv(Issue(db, agent, r, h, now).0) && Steps(db, Issue(db, agent, r, h, now).0)
  {
    hide Wakes, Said, Live, Notified, Terminal, RevokeParticipants;
    var db' := Issue(db, agent, r, h, now).0;
    if HashTaken(db.tokens, h) {
      UnchangedKeeps(db, db);
    } else {
      var rm, rows := db.rooms[r], RowsOf(db, r);
      assert RoomOk(rm, rows);
      IssueOk(rm, rows, agent);
      IssueRows(db, agent, r, h, now);
      OneRoomSuffices(db, db', r, rm, rows, rm, RowsOf(db', r));
    }
  }

  lemma TouchKeeps(db: Db, h: TokenHash, until: Time)
    requires Inv(db)
    ensures Inv(db.(tokens := Touch(db.tokens, h, until))) && Steps(db, db.(tokens := Touch(db.tokens, h, until)))
  {
    var db' := db.(tokens := Touch(db.tokens, h, until));
    forall q ensures RowsOf(db', q) == RowsOf(db, q) {
      TouchRevivesNothing(db.tokens, h, until, q);
    }
    UnchangedKeeps(db, db');
  }
}
