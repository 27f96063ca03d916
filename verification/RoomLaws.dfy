/** What the answers come to over whole runs: a turn is taken once, and the limits hold in every minute. */
module RoomLaws {
  import opened Prelude
  import opened RoomLifecycle
  import opened RoomTables
  import opened RoomOps
  import opened RoomInvariant
  import opened RoomAnswers
  import opened RoomRuns

  // ---------- a turn is taken once ----------

  /** Operation i of the run is a send, and it is accepted. */
  ghost predicate Accepts(db: Db, cfg: Config, ops: seq<Op>, i: nat)
  {
    && i < |ops| && ops[i].OpSend?
    && var op := ops[i];
       SendMessage(Run(db, cfg, ops[..i]), cfg, op.agent, op.room, op.expectedTurn, op.draft, op.t0, op.t1).1.Accepted?
  }

  lemma {:induction false} TurnsOnlyGrow(db: Db, cfg: Config, ops: seq<Op>, i: nat, j: nat, r: RoomId)
    requires Inv(db) && i <= j <= |ops| && r in Run(db, cfg, ops[..i]).rooms
    ensures r in Run(db, cfg, ops[..j]).rooms
    ensures Run(db, cfg, ops[..i]).rooms[r].turnIndex <= Run(db, cfg, ops[..j]).rooms[r].turnIndex
    decreases j
  {
    hide RowsOf, Apply, Inv;
    if i < j {
      TurnsOnlyGrow(db, cfg, ops, i, j - 1, r);
      assert ops[..j][..j-1] == ops[..j-1];
      var before, after := Run(db, cfg, ops[..j-1]), Run(db, cfg, ops[..j]);
      RunKeepsInv(db, cfg, ops[..j-1]);
      ApplyKeeps(before, cfg, ops[j-1]);
      assert RoomStep(before.rooms[r], RowsOf(before, r), after.rooms[r], RowsOf(after, r));
    }
  }

  /** A send that is repeated, by whomever and however often, is accepted at most once. */
  lemma RepeatedSendsAreAcceptedOnce(db: Db, cfg: Config, ops: seq<Op>, i: nat, j: nat)
    requires Inv(db) && i < j < |ops| && Accepts(db, cfg, ops, i) && ops[j].OpSend?
    requires ops[i].room == ops[j].room && ops[i].expectedTurn == ops[j].expectedTurn
    ensures !Accepts(db, cfg, ops, j)
  {
    hide Run, Inv, SendMessage, Spoken, UnderLimits, UnderPenalty;
    var first, second := Run(db, cfg, ops[..i]), Run(db, cfg, ops[..j]);
    var a, b, r := ops[i], ops[j], ops[i].room;
    RunKeepsInv(db, cfg, ops[..i]);
    RunKeepsInv(db, cfg, ops[..j]);
    SendIsAcceptedIff(first, cfg, a.agent, r, a.expectedTurn, a.draft, a.t0, a.t1);
    AcceptedSendsMoveOn(db, cfg, ops, i);
    TurnsOnlyGrow(db, cfg, ops, i + 1, j, r);
    SendIsAcceptedIff(second, cfg, b.agent, r, b.expectedTurn, b.draft, b.t0, b.t1);
  }

  lemma AcceptedSendsMoveOn(db: Db, cfg: Config, ops: seq<Op>, i: nat)
    requires Inv(db) && Accepts(db, cfg, ops, i)
    ensures ops[i].room in Run(db, cfg, ops[..i]).rooms && ops[i].room in Run(db, cfg, ops[..i+1]).rooms
    ensures Run(db, cfg, ops[..i+1]).rooms[ops[i].room].turnIndex == Run(db, cfg, ops[..i]).rooms[ops[i].room].turnIndex + 1
  {
    var op, before := ops[i], Run(db, cfg, ops[..i]);
    assert ops[..i+1][..i] == ops[..i];
    RunKeepsInv(db, cfg, ops[..i]);
    hide Inv, SendMessage;
    AcceptedSendsAreSpoken(before, cfg, op.agent, op.room, op.expectedTurn, op.draft, op.t0, op.t1);
  }

  // ---------- no minute holds too many messages ----------

  ghost predicate InOrder(ms: seq<Message>)
  {
    forall i, j :: 0 <= i < j < |ms| ==> ms[i].createdAt <= ms[j].createdAt
  }

  /** Looking back a minute from any message there are at most 30 of its sender and 60 of its room. */
  ghost predicate Spaced(ms: seq<Message>)
  {
    ms == [] ||
    (var last := ms[|ms|-1];
     && Spaced(ms[..|ms|-1])
     && CountBySender(ms, last.sender, last.createdAt - 60) <= 30
     && CountByRoom(ms, last.room, last.createdAt - 60) <= 60)
  }

  lemma KeptOrNot(ms: seq<Message>, r: RoomId)
    requires ms != []
    ensures var n := |ms| - 1;
            var before, after := WithoutRoom(ms[..n], r), WithoutRoom(ms, r);
            if ms[n].room == r then after == before else after == before + [ms[n]] && after[..|after|-1] == before
  {}

  lemma {:induction false} DeletingCountsDown(ms: seq<Message>, r: RoomId, x: AgentId, q: RoomId, since: Time)
    ensures CountBySender(WithoutRoom(ms, r), x, since) <= CountBySender(ms, x, since)
    ensures CountByRoom(WithoutRoom(ms, r), q, since) <= CountByRoom(ms, q, since)
  {
    if ms != [] {
      var n := |ms| - 1;
      DeletingCountsDown(ms[..n], r, x, q, since);
      KeptOrNot(ms, r);
    }
  }

  lemma SpacedAppend(ms: seq<Message>, m: Message)
    requires Spaced(ms) && InOrder(ms) && (ms != [] ==> ms[|ms|-1].createdAt <= m.createdAt)
    requires CountBySender(ms + [m], m.sender, m.createdAt - 60) <= 30 && CountByRoom(ms + [m], m.room, m.createdAt - 60) <= 60
    ensures Spaced(ms + [m]) && InOrder(ms + [m])
  {
    hide *;
    OrderedAppend(ms, m);
    LastOfAppend(ms, m);
    SpacedByTheLast(ms + [m], m);
  }

  lemma LastOfAppend(ms: seq<Message>, m: Message)
    ensures (ms + [m])[..|ms + [m]|-1] == ms && (ms + [m])[|ms + [m]|-1] == m
  {}

  lemma SpacedByTheLast(ms: seq<Message>, last: Message)
    requires ms != [] && Spaced(ms[..|ms|-1]) && last == ms[|ms|-1]
    requires CountBySender(ms, last.sender, last.createdAt - 60) <= 30 && CountByRoom(ms, last.room, last.createdAt - 60) <= 60
    ensures Spaced(ms)
  {
    hide CountBySender, CountByRoom;
  }

  lemma OrderedAppend(ms: seq<Message>, m: Message)
    requires InOrder(ms) && (ms != [] ==> ms[|ms|-1].createdAt <= m.createdAt)
    ensures InOrder(ms + [m])
  {
    forall i, j | 0 <= i < j < |ms + [m]| ensures (ms + [m])[i].createdAt <= (ms + [m])[j].createdAt {
      if j == |ms| {
        assert ms[i].createdAt <= ms[|ms|-1].createdAt;
      }
    }
  }

  lemma ShorterIsSpaced(ms: seq<Message>)
    requires Spaced(ms) && InOrder(ms) && ms != []
    ensures var n := |ms| - 1;
            && Spaced(ms[..n]) && InOrder(ms[..n]) && (n > 0 ==> ms[..n][n-1].createdAt <= ms[n].createdAt)
            && CountBySender(ms, ms[n].sender, ms[n].createdAt - 60) <= 30 && CountByRoom(ms, ms[n].room, ms[n].createdAt - 60) <= 60
  {}

  /** What is left of some messages is spaced, and ends no later than they do. */
  ghost predicate LeftSpaced(left: seq<Message>, until: Time)
  {
    Spaced(left) && InOrder(left) && (left != [] ==> left[|left|-1].createdAt <= until)
  }

  lemma LeftOneMore(left: seq<Message>, m: Message, until: Time)
    requires LeftSpaced(left, until) && until <= m.createdAt
    ensures LeftSpaced(left, m.createdAt)
    ensures CountBySender(left + [m], m.sender, m.createdAt - 60) <= 30 && CountByRoom(left + [m], m.room, m.createdAt - 60) <= 60
            ==> LeftSpaced(left + [m], m.createdAt)
  {
    hide Spaced, InOrder, CountBySender, CountByRoom;
    if CountBySender(left + [m], m.sender, m.createdAt - 60) <= 30 && CountByRoom(left + [m], m.room, m.createdAt - 60) <= 60 {
      SpacedAppend(left, m);
    }
  }

  lemma {:induction false} DeletingKeepsSpacing(ms: seq<Message>, r: RoomId, until: Time)
    requires Spaced(ms) && InOrder(ms) && (ms != [] ==> ms[|ms|-1].createdAt <= until)
    ensures LeftSpaced(WithoutRoom(ms, r), until)
  {
    if ms != [] {
      hide Spaced, InOrder, LeftSpaced, WithoutRoom, CountBySender, CountByRoom;
      var n := |ms| - 1;
      var m := ms[n];
      ShorterIsSpaced(ms);
      DeletingKeepsSpacing(ms[..n], r, m.createdAt);
      KeptOrNot(ms, r);
      DeletingCountsDown(ms, r, m.sender, m.room, m.createdAt - 60);
      LeftOneMore(WithoutRoom(ms[..n], r), m, m.createdAt);
      LeftLater(WithoutRoom(ms, r), m.createdAt, until);
    }
  }

  lemma LeftLater(left: seq<Message>, until: Time, later: Time)
    requires until <= later
    ensures LeftSpaced(left, until) ==> LeftSpaced(left, later)
  {}

  lemma DeletedIsSpaced(ms: seq<Message>, r: RoomId)
    requires Spaced(ms) && InOrder(ms)
    ensures Spaced(WithoutRoom(ms, r)) && InOrder(WithoutRoom(ms, r))
  {
    DeletingKeepsSpacing(ms, r, if ms == [] then 0 else ms[|ms|-1].createdAt);
  }

  /** The messages never change but by an accepted send or a purge. */
  lemma MessagesChangeBy(db: Db, cfg: Config, op: Op)
    requires Inv(db)
    ensures var after := Apply(db, cfg, op).messages;
            || after == db.messages
            || (ReadsRoom(op) && after == WithoutRoom(db.messages, op.room))
            || (op.OpSend? && UnderLimits(db, op.agent, op.room, op.t1) && exists turn :: after == db.messages + [Message(op.room, op.agent, turn, op.t1)])
  {
    if op.OpSend? {
      hide Inv, SendMessage, UnderLimits, WithoutRoom;
      SendChangesMessages(db, cfg, op);
    } else {
      OthersOnlyDelete(db, cfg, op);
    }
  }

  lemma OthersOnlyDelete(db: Db, cfg: Config, op: Op)
    requires Inv(db) && !op.OpSend?
    ensures var after := Apply(db, cfg, op).messages;
            after == db.messages || (ReadsRoom(op) && after == WithoutRoom(db.messages, op.room))
  {
    hide Inv, Reconcile, WithoutRoom, JoinRoom, Issue, Terminal, RevokeParticipants, TurnReadyNotice, FindToken, Touch;
    if ReadsRoom(op) && op.room in db.rooms {
      ReconcileChangesMessages(db, cfg, op.room, op.t0);
      if op.OpJoin? {
        JoinOnlyReconciles(db, cfg, op.joined, op.agent, op.room, op.t0);
      } else if op.OpToken? || op.OpRecover? {
        IssueLeavesMessages(Reconcile(db, cfg, op.room, op.t0), op.agent, op.room, op.hash, op.t1);
      }
    } else if ReadsRoom(op) {
      MissingRoomChangesNothing(db, cfg, op);
    }
  }

  lemma ReconcileChangesMessages(db: Db, cfg: Config, r: RoomId, now: Time)
    requires r in db.rooms
    ensures var d := Reconcile(db, cfg, r, now); r in d.rooms && (d.messages == db.messages || d.messages == WithoutRoom(db.messages, r))
  {
    hide Terminal, RevokeParticipants, PurgeDue, WithoutRoom;
  }

  lemma IssueLeavesMessages(db: Db, agent: AgentId, r: RoomId, h: TokenHash, at: Time)
    ensures Issue(db, agent, r, h, at).0.messages == db.messages
  {}

  lemma SendChangesMessages(db: Db, cfg: Config, op: Op)
    requires Inv(db) && op.OpSend?
    ensures var after := Apply(db, cfg, op).messages;
            || after == db.messages || after == WithoutRoom(db.messages, op.room)
            || (UnderLimits(db, op.agent, op.room, op.t1) && exists turn :: after == db.messages + [Message(op.room, op.agent, turn, op.t1)])
  {
    hide Inv, SendMessage, UnderLimits, UnderPenalty, Reconcile, WithoutRoom, TakesTurn, OverAt, RevokesExactly, Tells;
    SendAnswers(db, cfg, op.agent, op.room, op.expectedTurn, op.draft, op.t0, op.t1);
    if SendMessage(db, cfg, op.agent, op.room, op.expectedTurn, op.draft, op.t0, op.t1).1.Accepted? {
      SendIsAcceptedIff(db, cfg, op.agent, op.room, op.expectedTurn, op.draft, op.t0, op.t1);
      AcceptedSendsAreSpoken(db, cfg, op.agent, op.room, op.expectedTurn, op.draft, op.t0, op.t1);
    } else if !op.draft.blank && op.room in db.rooms {
      ReconcileChangesMessages(db, cfg, op.room, op.t0);
    }
  }

  /** Sends read a clock that does not run backwards, and not behind the messages there are. */
  ghost predicate ClockRuns(ms: seq<Message>, ops: seq<Op>)
  {
    && (forall i, k :: 0 <= i < |ms| && 0 <= k < |ops| && ops[k].OpSend? ==> ms[i].createdAt <= ops[k].t1)
    && forall i, j :: 0 <= i < j < |ops| && ops[i].OpSend? && ops[j].OpSend? ==> ops[i].t1 <= ops[j].t1
  }

  /** All messages are dated at or before some accepted send, or were there at the start. */
  ghost predicate DatedBy(ms: seq<Message>, before: seq<Message>, ops: seq<Op>)
  {
    forall i :: 0 <= i < |ms| ==> ms[i] in before || exists k :: 0 <= k < |ops| && ops[k].OpSend? && ms[i].createdAt == ops[k].t1
  }

  lemma OneMoreMessageIsSpaced(db: Db, op: Op, turn: nat)
    requires op.OpSend? && Spaced(db.messages) && InOrder(db.messages) && UnderLimits(db, op.agent, op.room, op.t1)
    requires forall i :: 0 <= i < |db.messages| ==> db.messages[i].createdAt <= op.t1
    ensures var after := db.messages + [Message(op.room, op.agent, turn, op.t1)]; Spaced(after) && InOrder(after)
  {
    var m := Message(op.room, op.agent, turn, op.t1);
    var after := db.messages + [m];
    CountsAreSets(db.messages, op.agent, op.room, op.t1);
    hide SentLately, SpokenLately, Spaced;
    assert after[..|after|-1] == db.messages;
    SpacedAppend(db.messages, m);
  }

  lemma {:induction false} SpacedInRuns(db: Db, cfg: Config, ops: seq<Op>)
    requires Inv(db) && Spaced(db.messages) && InOrder(db.messages) && ClockRuns(db.messages, ops)
    ensures Spaced(Run(db, cfg, ops).messages) && InOrder(Run(db, cfg, ops).messages)
    ensures DatedBy(Run(db, cfg, ops).messages, db.messages, ops)
  {
    hide Inv, Apply, Spaced, InOrder, UnderLimits, DatedBy, ClockRuns, WithoutRoom;
    if ops == [] {
      assert DatedBy(db.messages, db.messages, ops) by { DatedAtFirst(db.messages); }
    } else {
      var n := |ops| - 1;
      var mid, op := Run(db, cfg, ops[..n]), ops[n];
      ClockRunsBefore(db.messages, ops);
      SpacedInRuns(db, cfg, ops[..n]);
      RunKeepsInv(db, cfg, ops[..n]);
      MessagesChangeBy(mid, cfg, op);
      var after := Run(db, cfg, ops).messages;
      DatedStays(mid.messages, db.messages, ops);
      if turn: nat :| op.OpSend? && UnderLimits(mid, op.agent, op.room, op.t1) && after == mid.messages + [Message(op.room, op.agent, turn, op.t1)] {
        DatedBefore(mid.messages, db.messages, ops);
        OneMoreMessageIsSpaced(mid, op, turn);
        DatedAppend(mid.messages, Message(op.room, op.agent, turn, op.t1), db.messages, ops);
      } else if after != mid.messages {
        DeletedIsSpaced(mid.messages, op.room);
        KeptMessages(mid.messages, op.room);
        DatedKept(mid.messages, after, db.messages, ops);
      }
    }
  }

  lemma DatedAtFirst(ms: seq<Message>)
    ensures DatedBy(ms, ms, [])
  {}

  lemma ClockRunsBefore(ms: seq<Message>, ops: seq<Op>)
    requires ClockRuns(ms, ops) && ops != []
    ensures ClockRuns(ms, ops[..|ops|-1])
  {}

  lemma DatedStays(ms: seq<Message>, before: seq<Message>, ops: seq<Op>)
    requires ops != [] && DatedBy(ms, before, ops[..|ops|-1])
    ensures DatedBy(ms, before, ops)
  {
    var n := |ops| - 1;
    forall i | 0 <= i < |ms| && ms[i] !in before ensures exists k :: 0 <= k < |ops| && ops[k].OpSend? && ms[i].createdAt == ops[k].t1 {
      var k :| 0 <= k < n && ops[..n][k].OpSend? && ms[i].createdAt == ops[..n][k].t1;
      assert ops[k] == ops[..n][k];
    }
  }

  lemma DatedKept(ms: seq<Message>, kept: seq<Message>, before: seq<Message>, ops: seq<Op>)
    requires DatedBy(ms, before, ops) && forall m :: m in kept ==> m in ms
    ensures DatedBy(kept, before, ops)
  {
    forall i | 0 <= i < |kept| && kept[i] !in before ensures exists k :: 0 <= k < |ops| && ops[k].OpSend? && kept[i].createdAt == ops[k].t1 {
      assert kept[i] in ms;
    }
  }

  lemma DatedAppend(ms: seq<Message>, m: Message, before: seq<Message>, ops: seq<Op>)
    requires DatedBy(ms, before, ops) && ops != [] && ops[|ops|-1].OpSend? && m.createdAt == ops[|ops|-1].t1
    ensures DatedBy(ms + [m], before, ops)
  {}

  lemma DatedBefore(ms: seq<Message>, before: seq<Message>, ops: seq<Op>)
    requires ops != [] && ops[|ops|-1].OpSend? && DatedBy(ms, before, ops) && ClockRuns(before, ops)
    ensures forall i :: 0 <= i < |ms| ==> ms[i].createdAt <= ops[|ops|-1].t1
  {}

  lemma {:induction false} KeptMessages(ms: seq<Message>, r: RoomId)
    ensures forall m :: m in WithoutRoom(ms, r) ==> m in ms
  {
    if ms != [] {
      KeptMessages(ms[..|ms|-1], r);
    }
  }

  lemma {:induction false} LookingBack(ms: seq<Message>, x: AgentId, r: RoomId, since: Time)
    requires Spaced(ms) && InOrder(ms)
    requires forall i :: 0 <= i < |ms| ==> ms[i].createdAt <= since + 60
    ensures CountBySender(ms, x, since) <= 30 && CountByRoom(ms, r, since) <= 60
  {
    if ms != [] {
      var n := |ms| - 1;
      LookingBack(ms[..n], x, r, since);
      FartherBackIsMore(ms, x, r, ms[n].createdAt - 60, since);
    }
  }

  lemma {:induction false} FartherBackIsMore(ms: seq<Message>, x: AgentId, r: RoomId, farther: Time, since: Time)
    requires farther <= since
    ensures CountBySender(ms, x, since) <= CountBySender(ms, x, farther)
    ensures CountByRoom(ms, r, since) <= CountByRoom(ms, r, farther)
  {
    if ms != [] {
      FartherBackIsMore(ms[..|ms|-1], x, r, farther, since);
    }
  }

  /** The messages dated within one minute, both ends included. */
  ghost function Within(ms: seq<Message>, from: Time): set<int>
  {
    set i | 0 <= i < |ms| && from <= ms[i].createdAt <= from + 60
  }

  lemma UpTo(ms: seq<Message>, until: Time) returns (n: nat)
    requires InOrder(ms)
    ensures n <= |ms| && (forall i :: 0 <= i < n ==> ms[i].createdAt <= until) && (forall i :: n <= i < |ms| ==> ms[i].createdAt > until)
  {
    n := |ms|;
    while n > 0 && ms[n-1].createdAt > until
      invariant n <= |ms| && forall i :: n <= i < |ms| ==> ms[i].createdAt > until
    {
      n := n - 1;
    }
  }

  lemma {:induction false} PrefixesAreSpaced(ms: seq<Message>, n: nat)
    requires Spaced(ms) && n <= |ms|
    ensures Spaced(ms[..n])
  {
    if n < |ms| {
      PrefixesAreSpaced(ms[..|ms|-1], n);
      assert ms[..|ms|-1][..n] == ms[..n];
    } else {
      assert ms[..n] == ms;
    }
  }

  lemma WindowIsBounded(ms: seq<Message>, x: AgentId, r: RoomId, from: Time)
    requires Spaced(ms) && InOrder(ms)
    ensures |set i | i in Within(ms, from) && ms[i].sender == x| <= 30
    ensures |set i | i in Within(ms, from) && ms[i].room == r| <= 60
  {
    var n := UpTo(ms, from + 60);
    PrefixesAreSpaced(ms, n);
    assert InOrder(ms[..n]);
    hide Spaced, InOrder;
    LookingBack(ms[..n], x, r, from);
    CountsAreSets(ms[..n], x, r, from + 60);
    assert (set i | i in Within(ms, from) && ms[i].sender == x) == SentLately(ms[..n], x, from + 60);
    assert (set i | i in Within(ms, from) && ms[i].room == r) == SpokenLately(ms[..n], r, from + 60);
  }

  /** In every run no minute holds more than 30 messages of one sender, or 60 of one room. */
  lemma MinutesAreNotOverfull(db: Db, cfg: Config, ops: seq<Op>, x: AgentId, r: RoomId, from: Time)
    requires Inv(db) && db.messages == [] && ClockRuns([], ops)
    ensures var ms := Run(db, cfg, ops).messages;
            && |set i | i in Within(ms, from) && ms[i].sender == x| <= 30
            && |set i | i in Within(ms, from) && ms[i].room == r| <= 60
  {
    assert Spaced([]) && InOrder([]);
    hide *;
    SpacedInRuns(db, cfg, ops);
    WindowIsBounded(Run(db, cfg, ops).messages, x, r, from);
  }
}
