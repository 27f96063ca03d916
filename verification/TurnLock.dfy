/**
 * SendMessage split where it really splits: a read of the room, and later a transaction that
 * appends the message and updates the row.  Any number of senders, on any number of server
 * instances, may sit between the two.  Only the UNIQUE (room_id, turn) constraint orders them, and
 * in a room that had no message key when it was read not even that.
 */
module TurnLock {
  import opened Prelude
  import opened RoomLifecycle
  import opened RoomTables
  import opened RoomInvariant
  import RoomOps
  import RoomAnswers

  type SenderId = nat

  /** Message keys are drawn at random; here they are numbered. */
  type KeyId = nat

  /** What a sender read, the message key included if there was one, and on behalf of whom. */
  datatype Snapshot = Snapshot(agent: AgentId, rm: Room, key: Option<KeyId>)

  /**
   * One room, its messages in insertion order with the key each is sealed under, and the senders
   * between read and commit.  Rooms are created with a message key; rows from before there were keys
   * get one from their next message.  Key numbers from `drawn` on are unused.
   */
  datatype Split = Split(rm: Room, key: Option<KeyId>, drawn: nat, said: seq<Wake>, seals: seq<Option<KeyId>>,
                         inFlight: map<SenderId, Snapshot>)

  datatype Event =
    | Read(sender: SenderId, agent: AgentId, expectedTurn: int, now: Time)
    | Commit(sender: SenderId, now: Time)
    | Abort(sender: SenderId)
    | Close(now: Time)
    | AttachSecond(agent: AgentId)
    | Purge(now: Time)

  /** The checks a sender makes on the room it has just read. */
  predicate MaySend(rm: Room, agent: AgentId, expectedTurn: int, now: Time)
  {
    rm.Participant(agent) && rm.state == Active && now <= rm.ttlAt
    && expectedTurn == rm.turnIndex && rm.NextActor() == Some(agent)
  }

  predicate Taken(said: seq<Wake>, turn: nat)
  {
    exists i :: 0 <= i < |said| && said[i].turn == turn
  }

  /** The row written by the transaction: the current row, with the snapshot's next turn. */
  function RowAfter(current: Room, snap: Room, now: Time): Room
  {
    var next := current.(turnIndex := snap.turnIndex + 1);
    if snap.turnIndex + 1 >= snap.maxTurns then next.(state := Closed, closedAt := Some(now)) else next
  }

  /** Giving the room a key returns the row as it is now, and the message goes where that row points. */
  function TurnUsed(current: Room, snap: Snapshot): nat
  {
    if snap.key.Some? then snap.rm.turnIndex else current.turnIndex
  }

  predicate Accepts(s: Split, e: Event)
  {
    e.Commit? && e.sender in s.inFlight && !Taken(s.said, TurnUsed(s.rm, s.inFlight[e.sender]))
  }

  function Apply(s: Split, e: Event): Split
  {
    match e
    case Read(sender, agent, expectedTurn, now) =>
      if sender !in s.inFlight && MaySend(s.rm, agent, expectedTurn, now)
      then s.(inFlight := s.inFlight[sender := Snapshot(agent, s.rm, s.key)]) else s
    case Commit(sender, now) =>
      if sender !in s.inFlight then s
      else
        var snap := s.inFlight[sender];
        var rest := s.inFlight - {sender};
        var turn := TurnUsed(s.rm, snap);
        if Taken(s.said, turn) then s.(inFlight := rest)
        else
          var key := if snap.key.Some? then snap.key else Some(s.drawn);
          Split(RowAfter(s.rm, snap.rm, now), if snap.key.Some? then s.key else key, s.drawn + 1,
                s.said + [Wake(turn, snap.agent)], s.seals + [key], rest)
    case Abort(sender) => s.(inFlight := s.inFlight - {sender})
    case Close(now) =>
      if s.rm.state == Open || s.rm.state == Active then s.(rm := s.rm.(state := Closed, closedAt := Some(now))) else s
    case AttachSecond(agent) =>
      if s.rm.agentB.None? && agent != s.rm.agentA then s.(rm := s.rm.(agentB := Some(agent), state := Active)) else s
    case Purge(now) =>
      if s.rm.state == Closed then s.(rm := s.rm.(state := Purged, purgedAt := Some(now)), said := [], seals := []) else s
  }

  function Run(s: Split, es: seq<Event>): Split
  {
    if es == [] then s else Apply(Run(s, es[..|es|-1]), es[|es|-1])
  }

  function Accepted(s: Split, es: seq<Event>): nat
  {
    if es == [] then 0
    else Accepted(s, es[..|es|-1]) + if Accepts(Run(s, es[..|es|-1]), es[|es|-1]) then 1 else 0
  }

  /** A commit by a sender whose read the purge has overtaken. */
  predicate StaleCommit(s: Split, e: Event)
  {
    e.Commit? && e.sender in s.inFlight && s.rm.state == Purged
  }

  /** A commit by a sender that read the room without a key, after another message has moved it on. */
  predicate KeylessLate(s: Split, e: Event)
  {
    e.Commit? && e.sender in s.inFlight && s.inFlight[e.sender].key.None? && s.inFlight[e.sender].rm.turnIndex < s.rm.turnIndex
  }

  /** Purges may fall between a read and its commit, as long as that sender then gives up. */
  predicate QuietPurges(s: Split, es: seq<Event>)
  {
    es == [] || (QuietPurges(s, es[..|es|-1]) && !StaleCommit(Run(s, es[..|es|-1]), es[|es|-1]))
  }

  predicate Overtaken(s: Split, e: Event)
  {
    StaleCommit(s, e) || KeylessLate(s, e)
  }

  predicate Undisturbed(s: Split, es: seq<Event>)
  {
    es == [] || (Undisturbed(s, es[..|es|-1]) && !Overtaken(Run(s, es[..|es|-1]), es[|es|-1]))
  }

  ghost predicate SnapOk(rm: Room, snap: Snapshot)
  {
    && rm.agentB.Some? && snap.rm.agentB == rm.agentB && snap.rm.agentA == rm.agentA && snap.rm.maxTurns == rm.maxTurns
    && snap.rm.turnIndex <= rm.turnIndex && snap.rm.turnIndex < rm.maxTurns
    && snap.agent == rm.Actor(snap.rm.turnIndex)
    && rm.state != Open
  }

  /** The messages are the turns 0 .. turnIndex-1, or none once the room is purged. */
  ghost predicate TranscriptIsExact(s: Split)
  {
    s.said == if s.rm.agentB.None? || s.rm.state == Purged then [] else ExpectedTurns(s.rm)
  }

  ghost predicate Inv(s: Split)
  {
    && s.rm.turnIndex <= s.rm.maxTurns
    && (s.rm.state == Active ==> s.rm.agentB.Some? && s.rm.turnIndex < s.rm.maxTurns)
    && (s.rm.agentB.None? ==> s.rm.turnIndex == 0 && s.inFlight == map[] && s.rm.maxTurns >= 1)
    && TranscriptIsExact(s)
    && (forall k :: k in s.inFlight ==> SnapOk(s.rm, s.inFlight[k]))
  }

  /** A room as it is created, with one agent or, from an old listing, with both. */
  lemma FreshRoomOk(rm: Room, keyed: bool)
    requires rm.turnIndex == 0 && rm.maxTurns >= 1
    requires if rm.agentB.None? then rm.state == Open else rm.state == Active
    ensures var s := Split(rm, if keyed then Some(0) else None, 1, [], [], map[]); Inv(s) && Sealed(s) && (keyed ==> AllKeyed(s))
  {}

  lemma ApplyKeeps(s: Split, e: Event)
    requires Inv(s) && !Overtaken(s, e)
    ensures Inv(Apply(s, e))
    ensures Apply(s, e).rm.turnIndex == s.rm.turnIndex + if Accepts(s, e) then 1 else 0
  {
    var s' := Apply(s, e);
    if Accepts(s, e) {
      var snap := s.inFlight[e.sender];
      assert SnapOk(s.rm, snap);
      FreshTurnIsNext(s, snap);
      forall k | k in s'.inFlight ensures SnapOk(s'.rm, s'.inFlight[k]) {
        assert SnapOk(s.rm, s.inFlight[k]);
      }
    } else {
      forall k | k in s'.inFlight ensures SnapOk(s'.rm, s'.inFlight[k]) {
        assert k in s.inFlight ==> SnapOk(s.rm, s.inFlight[k]);
      }
    }
  }

  /** A turn that no message has taken can only be the next one. */
  lemma FreshTurnIsNext(s: Split, snap: Snapshot)
    requires Inv(s) && s.rm.state != Purged && SnapOk(s.rm, snap) && !Taken(s.said, TurnUsed(s.rm, snap))
    ensures TurnUsed(s.rm, snap) == s.rm.turnIndex
  {
    if TurnUsed(s.rm, snap) < s.rm.turnIndex {
      SpokenTurnsAreTaken(s, snap.rm.turnIndex);
    }
  }

  lemma SpokenTurnsAreTaken(s: Split, turn: nat)
    requires Inv(s) && s.rm.agentB.Some? && s.rm.state != Purged && turn < s.rm.turnIndex
    ensures Taken(s.said, turn)
  {
    assert s.said[turn].turn == turn;
  }

  lemma {:induction false} RunKeeps(s: Split, es: seq<Event>)
    requires Inv(s) && Undisturbed(s, es)
    ensures Inv(Run(s, es))
    ensures Run(s, es).rm.turnIndex == s.rm.turnIndex + Accepted(s, es)
  {
    if es != [] {
      RunKeeps(s, es[..|es|-1]);
      ApplyKeeps(Run(s, es[..|es|-1]), es[|es|-1]);
    }
  }

  /**
   * Under every interleaving without an overtaken commit an unpurged room holds exactly turns
   * 0 .. turnIndex-1, alternating between its agents, a purged one holds nothing, and turnIndex
   * counts the accepted sends: none lost, none doubled.
   */
  lemma UniquenessLinearisesTurns(s: Split, es: seq<Event>)
    requires Inv(s) && Undisturbed(s, es)
    ensures var end := Run(s, es);
            && end.rm.turnIndex == s.rm.turnIndex + Accepted(s, es)
            && |end.said| == (if end.rm.state == Purged then 0 else end.rm.turnIndex)
            && forall k :: 0 <= k < |end.said| ==> end.rm.agentB.Some? && end.said[k] == Wake(k, end.rm.Actor(k))
  {
    RunKeeps(s, es);
  }

  // ---------- exactly when the transcript stays exact ----------

  /** Whenever a connected room was purged it is still purged one step later. */
  ghost predicate PurgeLasts(s: Split, s': Split)
  {
    s.rm.agentB.Some? && s.rm.state == Purged ==> s'.rm.state == Purged
  }

  ghost predicate ExactThroughout(s: Split, es: seq<Event>)
  {
    && TranscriptIsExact(Run(s, es))
    && (es == [] || (ExactThroughout(s, es[..|es|-1]) && PurgeLasts(Run(s, es[..|es|-1]), Run(s, es))))
  }

  lemma OvertakenIff(s: Split, e: Event)
    requires Inv(s)
    ensures TranscriptIsExact(Apply(s, e)) && PurgeLasts(s, Apply(s, e)) <==> !Overtaken(s, e)
  {
    hide Inv, TranscriptIsExact, Apply, Overtaken;
    if Overtaken(s, e) {
      OvertakenDoublesATurn(s, e);
    } else {
      ApplyKeeps(s, e);
      ExactAndLasting(s, e);
    }
  }

  lemma ExactAndLasting(s: Split, e: Event)
    requires Inv(Apply(s, e)) && !Overtaken(s, e)
    ensures TranscriptIsExact(Apply(s, e)) && PurgeLasts(s, Apply(s, e))
  {}

  /** A keyless sender that comes late is accepted, and the room then points at a turn that is already spoken. */
  lemma OvertakenDoublesATurn(s: Split, e: Event)
    requires Inv(s) && Overtaken(s, e)
    ensures Accepts(s, e)
    ensures var s' := Apply(s, e);
            && !(TranscriptIsExact(s') && PurgeLasts(s, s'))
            && (s.rm.state != Purged ==> |s'.said| == s.rm.turnIndex + 1 && s'.rm.turnIndex <= s.rm.turnIndex && Taken(s'.said, s'.rm.turnIndex))
  {
    var snap := s.inFlight[e.sender];
    assert SnapOk(s.rm, snap);
    var turn := TurnUsed(s.rm, snap);
    if s.rm.state != Purged {
      NotTakenYet(s);
      var s' := Apply(s, e);
      var next := snap.rm.turnIndex + 1;
      assert s'.said[next] == if next < turn then s.said[next] else Wake(turn, snap.agent);
      assert s'.said[next].turn == next;
    } else {
      assert !Taken([], turn);
    }
  }

  lemma NotTakenYet(s: Split)
    requires Inv(s) && s.rm.agentB.Some?
    ensures !Taken(s.said, s.rm.turnIndex)
  {}

  /**
   * The transcript is exact, and a purge lasts, throughout a run if and only if no sender commits
   * that a purge has overtaken, or that read the room without a key and another message has overtaken.
   */
  lemma {:induction false} TranscriptStaysExactIff(s: Split, es: seq<Event>)
    requires Inv(s)
    ensures ExactThroughout(s, es) <==> Undisturbed(s, es)
  {
    hide Inv, TranscriptIsExact, Apply, Overtaken, PurgeLasts;
    if es == [] {
      ExactAtFirst(s);
    } else {
      var before := es[..|es|-1];
      TranscriptStaysExactIff(s, before);
      if Undisturbed(s, before) {
        RunKeeps(s, before);
        OvertakenIff(Run(s, before), es[|es|-1]);
      }
    }
  }

  lemma ExactAtFirst(s: Split)
    requires Inv(s)
    ensures TranscriptIsExact(Run(s, []))
  {}

  // ---------- exactly when messages stay readable ----------

  /** The room's key opens every message that is sealed at all. */
  predicate Readable(s: Split)
  {
    forall i :: 0 <= i < |s.seals| ==> s.seals[i].None? || s.seals[i] == s.key
  }

  /** The sender read the key there is, or read none and the turn it read is by now spoken under the key there is. */
  ghost predicate SnapSealed(s: Split, snap: Snapshot)
  {
    || (snap.key == s.key && (s.key.None? ==> s.rm.state == Purged || snap.rm.turnIndex == s.rm.turnIndex))
    || (&& snap.key.None? && s.key.Some?
        && (s.rm.state == Purged || (snap.rm.turnIndex < |s.seals| && s.seals[snap.rm.turnIndex] == s.key)))
  }

  ghost predicate Sealed(s: Split)
  {
    && |s.seals| == |s.said| && Readable(s) && (s.key.Some? ==> s.key.value < s.drawn)
    && forall k :: k in s.inFlight ==> SnapSealed(s, s.inFlight[k])
  }

  lemma SealedStep(s: Split, e: Event)
    requires Inv(s) && Sealed(s) && !Overtaken(s, e)
    ensures Sealed(Apply(s, e))
  {
    var s' := Apply(s, e);
    if Accepts(s, e) {
      AcceptedStaysSealed(s, e);
    } else {
      forall k | k in s'.inFlight ensures SnapSealed(s', s'.inFlight[k]) {
        assert k in s.inFlight ==> SnapSealed(s, s.inFlight[k]);
      }
    }
  }

  lemma AcceptedStaysSealed(s: Split, e: Event)
    requires Inv(s) && Sealed(s) && !Overtaken(s, e) && Accepts(s, e)
    ensures Sealed(Apply(s, e))
  {
    var s' := Apply(s, e);
    var snap := s.inFlight[e.sender];
    assert SnapOk(s.rm, snap) && SnapSealed(s, snap);
    FreshTurnIsNext(s, snap);
    assert |s.said| == s.rm.turnIndex;
    forall k | k in s'.inFlight ensures SnapSealed(s', s'.inFlight[k]) {
      assert SnapOk(s.rm, s.inFlight[k]) && SnapSealed(s, s.inFlight[k]);
    }
  }

  /** As long as no sender is overtaken, whoever reads the room can read every message in it. */
  lemma {:induction false} UndisturbedRoomsStayReadable(s: Split, es: seq<Event>)
    requires Inv(s) && Sealed(s) && Undisturbed(s, es)
    ensures Sealed(Run(s, es)) && Readable(Run(s, es))
  {
    hide Inv, Apply, Overtaken;
    if es != [] {
      UndisturbedRoomsStayReadable(s, es[..|es|-1]);
      RunKeeps(s, es[..|es|-1]);
      SealedStep(Run(s, es[..|es|-1]), es[|es|-1]);
    }
  }

  /** A late keyless sender gives the room another key, and the turn it had read stays sealed under the one before. */
  lemma KeylessLateLosesTheKey(s: Split, e: Event)
    requires Inv(s) && Sealed(s) && KeylessLate(s, e) && s.rm.state != Purged
    ensures !Readable(Apply(s, e))
  {
    OvertakenDoublesATurn(s, e);
    var snap := s.inFlight[e.sender];
    assert SnapOk(s.rm, snap) && SnapSealed(s, snap);
    var s' := Apply(s, e);
    assert s'.seals[snap.rm.turnIndex] == s.seals[snap.rm.turnIndex];
  }

  // ---------- rooms with a key ----------

  /** Nobody has read the room without a key, and nobody will. */
  predicate AllKeyed(s: Split)
  {
    s.key.Some? && forall k :: k in s.inFlight ==> s.inFlight[k].key.Some?
  }

  /** In a room that has had its key from the start only purges can overtake a sender. */
  lemma {:induction false} KeyedRoomsAreUndisturbedIff(s: Split, es: seq<Event>)
    requires AllKeyed(s)
    ensures AllKeyed(Run(s, es))
    ensures Undisturbed(s, es) <==> QuietPurges(s, es)
  {
    if es != [] {
      KeyedRoomsAreUndisturbedIff(s, es[..|es|-1]);
    }
  }

  // ---------- exactly when a purge is harmless ----------

  /** A connected room, empty if it is purged. */
  predicate PurgedIsEmpty(s: Split)
  {
    s.rm.agentB.Some? && (s.rm.state == Purged ==> s.said == [])
  }

  /** In a purged room only a stale commit does anything, and it always does. */
  lemma PurgedStepIff(s: Split, e: Event)
    requires PurgedIsEmpty(s)
    ensures Apply(s, e).rm.agentB.Some?
    ensures s.rm.state == Purged ==> ((Apply(s, e).rm.state == Purged && Apply(s, e).said == []) <==> !StaleCommit(s, e))
    ensures s.rm.state != Purged ==> PurgedIsEmpty(Apply(s, e)) && !StaleCommit(s, e)
  {
    if StaleCommit(s, e) {
      assert !Taken([], TurnUsed(s.rm, s.inFlight[e.sender]));
      assert Accepts(s, e);
    }
  }

  /** Whenever the room was purged it is still purged and empty one step later. */
  ghost predicate PurgesHold(s: Split, es: seq<Event>)
  {
    es == [] ||
    (PurgesHold(s, es[..|es|-1]) &&
     (Run(s, es[..|es|-1]).rm.state == Purged ==> Run(s, es).rm.state == Purged && Run(s, es).said == []))
  }

  /** A connected room that was purged stays purged and empty if and only if no overtaken sender commits. */
  lemma {:induction false} PurgedStaysEmptyIff(s: Split, es: seq<Event>)
    requires PurgedIsEmpty(s)
    ensures PurgesHold(s, es) <==> QuietPurges(s, es)
    ensures PurgesHold(s, es) ==> PurgedIsEmpty(Run(s, es))
  {
    hide Apply, StaleCommit;
    if es != [] {
      var before, e := es[..|es|-1], es[|es|-1];
      PurgedStaysEmptyIff(s, before);
      if QuietPurges(s, before) {
        PurgedStepIff(Run(s, before), e);
      }
    }
  }

  /**
   * Of all senders that read the same turn only the first to commit is accepted, unless a purge came
   * in between or the later one read the room without a key.
   */
  lemma LoserIsRefusedIff(s: Split, winner: SenderId, loser: SenderId, es: seq<Event>, now: Time, later: Time)
    requires Inv(s) && winner in s.inFlight && loser in s.inFlight && winner != loser && s.rm.state != Purged
    requires s.inFlight[winner].rm.turnIndex == s.inFlight[loser].rm.turnIndex
    requires Accepts(s, Commit(winner, now)) && Undisturbed(s, [Commit(winner, now)] + es)
    requires loser in Run(Apply(s, Commit(winner, now)), es).inFlight
    requires forall i :: 0 <= i < |es| ==> !(es[i].Read? && es[i].sender == loser)
    ensures var end := Run(Apply(s, Commit(winner, now)), es);
            Accepts(end, Commit(loser, later)) <==> end.rm.state == Purged || s.inFlight[loser].key.None?
  {
    var won := Apply(s, Commit(winner, now));
    CommitFirst(s, Commit(winner, now), es);
    ApplyKeeps(s, Commit(winner, now));
    RunKeeps(won, es);
    SnapshotsStay(won, es, loser);
    var end := Run(won, es);
    assert SnapOk(s.rm, s.inFlight[winner]) && SnapOk(end.rm, end.inFlight[loser]);
    FreshTurnIsNext(s, s.inFlight[winner]);
    if end.rm.state != Purged {
      SpokenTurnsAreTaken(end, s.rm.turnIndex);
      NotTakenYet(end);
    }
  }

  lemma {:induction false} CommitFirst(s: Split, e: Event, rest: seq<Event>)
    ensures Run(s, [e] + rest) == Run(Apply(s, e), rest)
    ensures Undisturbed(s, [e] + rest) <==> !Overtaken(s, e) && Undisturbed(Apply(s, e), rest)
  {
    hide Apply, Overtaken;
    if rest == [] {
      assert [e] + rest == [e] && [e][..0] == [];
      assert Run(s, []) == s && Undisturbed(s, []);
    } else {
      CommitFirst(s, e, rest[..|rest|-1]);
      assert ([e] + rest)[..|[e] + rest|-1] == [e] + rest[..|rest|-1];
    }
  }

  lemma {:induction false} SnapshotsStay(s: Split, es: seq<Event>, k: SenderId)
    requires k in s.inFlight && k in Run(s, es).inFlight
    requires forall i :: 0 <= i < |es| ==> !(es[i].Read? && es[i].sender == k)
    ensures Run(s, es).inFlight[k] == s.inFlight[k]
  {
    if es != [] {
      var before := es[..|es|-1];
      if k in Run(s, before).inFlight {
        SnapshotsStay(s, before, k);
      }
    }
  }

  /** A keyless sender comes late exactly when another send was accepted since its read. */
  lemma KeylessLateIff(s: Split, es: seq<Event>, k: SenderId, now: Time)
    requires Inv(s) && Undisturbed(s, es) && k in s.inFlight && s.inFlight[k].rm == s.rm && k in Run(s, es).inFlight
    requires forall i :: 0 <= i < |es| ==> !(es[i].Read? && es[i].sender == k)
    ensures KeylessLate(Run(s, es), Commit(k, now)) <==> s.inFlight[k].key.None? && Accepted(s, es) > 0
  {
    RunKeeps(s, es);
    SnapshotsStay(s, es, k);
  }

  // ---------- closing between read and commit ----------

  /** The sender does nothing in between. */
  predicate Waits(e: Event, k: SenderId)
  {
    e != Abort(k) && !(e.Commit? && e.sender == k) && !(e.Read? && e.sender == k)
  }

  predicate Closes(es: seq<Event>)
  {
    exists i :: 0 <= i < |es| && es[i].Close?
  }

  predicate PurgesAfterClosing(es: seq<Event>)
  {
    exists i, j :: 0 <= i < j < |es| && es[i].Close? && es[j].Purge?
  }

  lemma LastEvent(es: seq<Event>)
    requires es != []
    ensures var before, e := es[..|es|-1], es[|es|-1];
            && (Closes(es) <==> Closes(before) || e.Close?)
            && (PurgesAfterClosing(es) <==> PurgesAfterClosing(before) || (e.Purge? && Closes(before)))
  {
    var n := |es| - 1;
    assert forall i :: 0 <= i < n ==> es[..n][i] == es[i];
    assert es[n].Close? ==> Closes(es);
    if e :| e == es[n] && e.Purge? && Closes(es[..n]) {
      var i :| 0 <= i < n && es[..n][i].Close?;
      assert es[i].Close? && es[n].Purge?;
    }
  }

  /** As long as no turn is taken, what the room goes through after a read is decided by closes and purges alone. */
  lemma {:induction false} OnlyClosesAndPurgesMoveTheRoom(s: Split, es: seq<Event>, k: SenderId)
    requires Inv(s) && Undisturbed(s, es) && s.rm.state == Active && k in s.inFlight && forall i :: 0 <= i < |es| ==> Waits(es[i], k)
    requires Accepted(s, es) == 0
    ensures k in Run(s, es).inFlight
    ensures Run(s, es).rm.state == if PurgesAfterClosing(es) then Purged else if Closes(es) then Closed else Active
  {
    hide Inv, Apply, Closes, PurgesAfterClosing, Accepts, Waits, Overtaken;
    if es == [] {
      NothingHappens();
    } else {
      var before, e := es[..|es|-1], es[|es|-1];
      OnlyClosesAndPurgesMoveTheRoom(s, before, k);
      LastEvent(es);
      ClosingComesFirst(before);
      RunKeeps(s, before);
      WaitingStep(Run(s, before), e, k);
    }
  }

  lemma NothingHappens()
    ensures !Closes([]) && !PurgesAfterClosing([])
  {}

  lemma ClosingComesFirst(es: seq<Event>)
    ensures PurgesAfterClosing(es) ==> Closes(es)
  {}

  lemma WaitingStep(s: Split, e: Event, k: SenderId)
    requires Inv(s) && k in s.inFlight && Waits(e, k) && !Accepts(s, e)
    ensures k in Apply(s, e).inFlight
    ensures Apply(s, e).rm.state ==
            if e.Close? && s.rm.state == Active then Closed else if e.Purge? && s.rm.state == Closed then Purged else s.rm.state
  {
    assert SnapOk(s.rm, s.inFlight[k]);
  }

  /**
   * A message lands in a closed room exactly when, between its read and its commit, the room was
   * closed and not purged after that, and no other turn was accepted.
   */
  lemma LandsAfterCloseIff(s: Split, es: seq<Event>, k: SenderId, now: Time)
    requires Inv(s) && Undisturbed(s, es) && s.rm.state == Active && forall i :: 0 <= i < |es| ==> Waits(es[i], k)
    requires k in s.inFlight && s.inFlight[k].rm == s.rm && s.inFlight[k].key.Some?
    requires Accepts(Run(s, es), Commit(k, now))
    ensures Run(s, es).rm.state == Closed <==> Closes(es) && !PurgesAfterClosing(es) && Accepted(s, es) == 0
  {
    hide Closes, PurgesAfterClosing, Accepted, Waits;
    RunKeeps(s, es);
    assert forall i :: 0 <= i < |es| && es[i].Read? && es[i].sender == k ==> !Waits(es[i], k) by {
      ReadersDoNotWait(es, k);
    }
    SnapshotsStay(s, es, k);
    var t := Run(s, es);
    assert SnapOk(t.rm, t.inFlight[k]);
    if t.rm.state != Purged {
      FreshTurnIsNext(t, t.inFlight[k]);
    }
    if Accepted(s, es) == 0 {
      OnlyClosesAndPurgesMoveTheRoom(s, es, k);
    }
  }

  lemma ReadersDoNotWait(es: seq<Event>, k: SenderId)
    ensures forall i :: 0 <= i < |es| && es[i].Read? && es[i].sender == k ==> !Waits(es[i], k)
  {}

  // ---------- a room that no turn can leave ----------

  /** The turn the room points at is spoken, and so is every turn that some sender is about to speak. */
  ghost predicate Stuck(s: Split)
  {
    && AllKeyed(s) && Taken(s.said, s.rm.turnIndex)
    && forall k :: k in s.inFlight ==> Taken(s.said, s.inFlight[k].rm.turnIndex)
  }

  /** A late keyless commit leaves the room stuck, unless yet another keyless sender is waiting. */
  lemma LateKeylessCommitSticks(s: Split, e: Event)
    requires Inv(s) && KeylessLate(s, e) && s.rm.state != Purged
    requires forall k :: k in s.inFlight && k != e.sender ==> s.inFlight[k].key.Some?
    ensures Stuck(Apply(s, e))
  {
    OvertakenDoublesATurn(s, e);
    var s' := Apply(s, e);
    forall k | k in s'.inFlight ensures Taken(s'.said, s'.inFlight[k].rm.turnIndex) {
      assert SnapOk(s.rm, s.inFlight[k]);
      var turn := s.inFlight[k].rm.turnIndex;
      assert s'.said[turn].turn == turn;
    }
  }

  /** In a stuck room every send is refused, until a purge empties it. */
  lemma {:induction false} StuckRoomsRefuseEverySend(s: Split, es: seq<Event>)
    requires Stuck(s) && forall i :: 0 <= i < |es| ==> !es[i].Purge?
    ensures Stuck(Run(s, es)) && Accepted(s, es) == 0 && Run(s, es).said == s.said && Run(s, es).rm.turnIndex == s.rm.turnIndex
  {
    hide Stuck, Apply, Accepts;
    if es != [] {
      StuckRoomsRefuseEverySend(s, es[..|es|-1]);
      StuckStep(Run(s, es[..|es|-1]), es[|es|-1]);
    }
  }

  lemma StuckStep(s: Split, e: Event)
    requires Stuck(s) && !e.Purge?
    ensures !Accepts(s, e) && Stuck(Apply(s, e)) && Apply(s, e).said == s.said && Apply(s, e).rm.turnIndex == s.rm.turnIndex
  {
    hide Taken;
  }

  // ---------- the split and the whole ----------

  /** A split send goes ahead on exactly the rooms, turns and senders that a whole one does. */
  lemma ReadsAreCheckedAlike(rm: Room, agent: AgentId, expectedTurn: int, now: Time)
    ensures MaySend(rm, agent, expectedTurn, now) <==> RoomAnswers.TakesTurn(rm, agent, expectedTurn, now, now)
  {}

  lemma ReadThenCommit(s: Split, k: SenderId, agent: AgentId, expectedTurn: int, now: Time)
    requires MaySend(s.rm, agent, expectedTurn, now) && k !in s.inFlight && !Taken(s.said, s.rm.turnIndex)
    ensures var read := Apply(s, Read(k, agent, expectedTurn, now));
            && Accepts(read, Commit(k, now))
            && Apply(read, Commit(k, now)).rm == RowAfter(s.rm, s.rm, now)
            && Apply(read, Commit(k, now)).said == s.said + [Wake(s.rm.turnIndex, agent)]
  {
    hide Taken;
  }

  lemma SpokenRow(db: Db, d: Db, agent: AgentId, r: RoomId, at: Time)
    requires r in db.rooms && RoomAnswers.Spoken(db, d, agent, r, at) && db.rooms[r].turnIndex < db.rooms[r].maxTurns
    ensures r in d.rooms && d.rooms[r] == RowAfter(db.rooms[r], db.rooms[r], at)
    ensures d.messages == db.messages + [Message(r, agent, db.rooms[r].turnIndex, at)]
  {
    hide RoomAnswers.RevokesExactly, RoomAnswers.Tells;
  }

  /** A whole send that is accepted does to its room and to the transcript what a read and its commit do with nothing in between. */
  lemma WholeSendIsReadThenCommit(db: Db, cfg: RoomOps.Config, agent: AgentId, r: RoomId, expectedTurn: int, draft: RoomOps.Draft,
                                  t0: Time, t1: Time, s: Split, k: SenderId)
    requires RoomInvariant.Inv(db) && RoomOps.SendMessage(db, cfg, agent, r, expectedTurn, draft, t0, t1).1.Accepted?
    requires r in db.rooms && s.rm == db.rooms[r] && s.said == Said(db.messages, r) && k !in s.inFlight
    ensures var d := RoomOps.SendMessage(db, cfg, agent, r, expectedTurn, draft, t0, t1).0;
            var read := Read(k, agent, expectedTurn, t1);
            && Accepts(Apply(s, read), Commit(k, t1))
            && r in d.rooms && Apply(Apply(s, read), Commit(k, t1)).rm == d.rooms[r]
            && Apply(Apply(s, read), Commit(k, t1)).said == Said(d.messages, r)
  {
    hide RoomAnswers.UnderLimits, RoomAnswers.UnderPenalty, RoomAnswers.Spoken, RoomInvariant.Inv, Said, Apply, Accepts, Taken, MaySend, RowAfter, RoomOps.SendMessage;
    RoomAnswers.SendIsAcceptedIff(db, cfg, agent, r, expectedTurn, draft, t0, t1);
    RoomAnswers.AcceptedSendsAreSpoken(db, cfg, agent, r, expectedTurn, draft, t0, t1);
    ReadsAreCheckedAlike(db.rooms[r], agent, expectedTurn, t1);
    RoomIsWellFormed(db, r);
    NextTurnIsUnsaid(db, r);
    SpokenRow(db, RoomOps.SendMessage(db, cfg, agent, r, expectedTurn, draft, t0, t1).0, agent, r, t1);
    AppendMessage(db.messages, Message(r, agent, db.rooms[r].turnIndex, t1), r);
    ReadThenCommit(s, k, agent, expectedTurn, t1);
  }

  lemma RoomIsWellFormed(db: Db, r: RoomId)
    requires RoomInvariant.Inv(db) && r in db.rooms && db.rooms[r].state == Active
    ensures db.rooms[r].turnIndex < db.rooms[r].maxTurns
  {
    assert RoomOk(db.rooms[r], RowsOf(db, r));
  }

  lemma NextTurnIsUnsaid(db: Db, r: RoomId)
    requires RoomInvariant.Inv(db) && r in db.rooms && db.rooms[r].state == Active
    ensures !Taken(Said(db.messages, r), db.rooms[r].turnIndex)
  {
    hide Said, Wakes, Live, Notified;
    assert RoomOk(db.rooms[r], RowsOf(db, r));
  }

  // ---------- runs that show the failures ----------

  lemma Unroll(s: Split, es: seq<Event>, e: Event)
    ensures Run(s, es + [e]) == Apply(Run(s, es), e)
    ensures QuietPurges(s, es + [e]) <==> QuietPurges(s, es) && !StaleCommit(Run(s, es), e)
    ensures Undisturbed(s, es + [e]) <==> Undisturbed(s, es) && !Overtaken(Run(s, es), e)
  {
    assert (es + [e])[..|es|] == es;
  }

  lemma UnrollNothing(s: Split)
    ensures Run(s, []) == s && QuietPurges(s, []) && Undisturbed(s, [])
  {}

  const BUSY := Split(Room(1, Some(2), Active, 0, 1, 100, None, None), Some(0), 1, [], [], map[])

  /** The failing runs start where the theorems do. */
  lemma BusyIsOk()
    ensures Inv(BUSY) && AllKeyed(BUSY)
  {
    FreshRoomOk(BUSY.rm, true);
  }

  lemma ReadThenClose()
    ensures var es := [Read(9, 1, 0, 5), Close(6)];
            Run(BUSY, es) == BUSY.(rm := BUSY.rm.(state := Closed, closedAt := Some(6)), inFlight := map[9 := Snapshot(1, BUSY.rm, Some(0))])
            && Undisturbed(BUSY, es) && QuietPurges(BUSY, es)
  {
    var e0, e1 := Read(9, 1, 0, 5), Close(6);
    UnrollNothing(BUSY);
    Unroll(BUSY, [], e0);
    Unroll(BUSY, [e0], e1);
    assert [] + [e0] == [e0] && [e0] + [e1] == [e0, e1];
    hide Run, QuietPurges, Undisturbed;
    assert Run(BUSY, [e0]) == BUSY.(inFlight := map[9 := Snapshot(1, BUSY.rm, Some(0))]);
  }

  /** The transaction does not look at the state again, so a message can land in a closed room. */
  lemma MessageCanLandAfterClose()
    ensures exists es :: Undisturbed(BUSY, es) && Run(BUSY, es).rm.state == Closed && Run(BUSY, es).said == [Wake(0, 1)]
              && |es| > 0 && Run(BUSY, es[..|es|-1]).rm.state == Closed && Run(BUSY, es[..|es|-1]).said == []
  {
    var e0, e1, e2 := Read(9, 1, 0, 5), Close(6), Commit(9, 7);
    hide Run, QuietPurges, Undisturbed;
    ReadThenClose();
    Unroll(BUSY, [e0, e1], e2);
    assert [e0, e1] + [e2] == [e0, e1, e2] && [e0, e1, e2][..2] == [e0, e1];
    assert !Taken([], 0);
    assert Undisturbed(BUSY, [e0, e1, e2]) && Run(BUSY, [e0, e1, e2]).said == [Wake(0, 1)];
  }

  /** With a purge in between, a message survives the purge and brings the room back to CLOSED. */
  lemma PurgeInBetweenLeavesAMessage()
    ensures exists es :: !QuietPurges(BUSY, es) && Run(BUSY, es).rm.state == Closed && Run(BUSY, es).said == [Wake(0, 1)]
              && |es| > 0 && Run(BUSY, es[..|es|-1]).rm.state == Purged
  {
    var e0, e1, e2, e3 := Read(9, 1, 0, 5), Close(6), Purge(300), Commit(9, 301);
    hide Run, QuietPurges, Undisturbed;
    ReadThenClose();
    Unroll(BUSY, [e0, e1], e2);
    Unroll(BUSY, [e0, e1, e2], e3);
    assert [e0, e1] + [e2] == [e0, e1, e2] && [e0, e1, e2] + [e3] == [e0, e1, e2, e3];
    assert [e0, e1, e2, e3][..3] == [e0, e1, e2];
    var closed := BUSY.rm.(state := Closed, closedAt := Some(6));
    var held := map[9 := Snapshot(1, BUSY.rm, Some(0))];
    assert 9 in held;
    assert Run(BUSY, [e0, e1, e2]) == Split(closed.(state := Purged, purgedAt := Some(300)), Some(0), 1, [], [], held);
    assert !Taken([], 0);
  }

  /** A room from before there were message keys, with turns to spare. */
  const KEYLESS := Split(Room(1, Some(2), Active, 0, 10, 100, None, None), None, 1, [], [], map[])

  lemma TwoReaders(e0: Event, e1: Event)
    requires e0 == Read(8, 1, 0, 5) && e1 == Read(9, 1, 0, 5)
    ensures var snap := Snapshot(1, KEYLESS.rm, None);
            Run(KEYLESS, [e0, e1]) == KEYLESS.(inFlight := map[8 := snap, 9 := snap]) && Undisturbed(KEYLESS, [e0, e1])
  {
    UnrollNothing(KEYLESS);
    Unroll(KEYLESS, [], e0);
    Unroll(KEYLESS, [e0], e1);
    assert [] + [e0] == [e0] && [e0] + [e1] == [e0, e1];
    hide Run, QuietPurges, Undisturbed;
    assert Run(KEYLESS, [e0]) == KEYLESS.(inFlight := map[8 := Snapshot(1, KEYLESS.rm, None)]);
  }

  /**
   * Agent 1 sends turn 0 through two instances: both messages are stored, the first under a key that
   * is gone, the room stands at turn 1, and no send is ever accepted again.
   */
  lemma KeylessRoomDoublesATurn()
    ensures Inv(KEYLESS)
    ensures exists es :: Run(KEYLESS, es).said == [Wake(0, 1), Wake(1, 1)] && Run(KEYLESS, es).rm == KEYLESS.rm.(turnIndex := 1)
              && Stuck(Run(KEYLESS, es)) && !Readable(Run(KEYLESS, es))
  {
    var e0, e1, e2, e3 := Read(8, 1, 0, 5), Read(9, 1, 0, 5), Commit(8, 6), Commit(9, 7);
    FreshRoomOk(KEYLESS.rm, false);
    hide Run, QuietPurges, Undisturbed;
    TwoReaders(e0, e1);
    Unroll(KEYLESS, [e0, e1], e2);
    Unroll(KEYLESS, [e0, e1, e2], e3);
    assert [e0, e1] + [e2] == [e0, e1, e2] && [e0, e1, e2] + [e3] == [e0, e1, e2, e3];
    var snap := Snapshot(1, KEYLESS.rm, None);
    FirstOfTwo(snap);
    SecondOfTwo(snap);
    assert !Readable(Run(KEYLESS, [e0, e1, e2, e3])) by {
      assert Run(KEYLESS, [e0, e1, e2, e3]).seals[0] == Some(1);
    }
  }

  lemma FirstOfTwo(snap: Snapshot)
    requires snap == Snapshot(1, KEYLESS.rm, None)
    ensures Apply(KEYLESS.(inFlight := map[8 := snap, 9 := snap]), Commit(8, 6))
         == Split(KEYLESS.rm.(turnIndex := 1), Some(1), 2, [Wake(0, 1)], [Some(1)], map[9 := snap])
  {
    assert !Taken([], 0);
    assert map[8 := snap, 9 := snap] - {8} == map[9 := snap];
    assert [] + [Wake(0, 1)] == [Wake(0, 1)];
  }

  lemma SecondOfTwo(snap: Snapshot)
    requires snap == Snapshot(1, KEYLESS.rm, None)
    ensures var s := Apply(Split(KEYLESS.rm.(turnIndex := 1), Some(1), 2, [Wake(0, 1)], [Some(1)], map[9 := snap]), Commit(9, 7));
            s == Split(KEYLESS.rm.(turnIndex := 1), Some(2), 3, [Wake(0, 1), Wake(1, 1)], [Some(1), Some(2)], map[]) && Stuck(s)
  {
    assert !Taken([Wake(0, 1)], 1);
    assert map[9 := snap] - {9} == map[];
    assert [Wake(0, 1)] + [Wake(1, 1)] == [Wake(0, 1), Wake(1, 1)];
    assert [Some(1)] + [Some(2)] == [Some(1), Some(2)];
    assert [Wake(0, 1), Wake(1, 1)][1].turn == 1;
  }
}
