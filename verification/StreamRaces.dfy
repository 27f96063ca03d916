/** Two runs that show what the side conditions of the stream's theorems are for. */
module StreamRaces {
  import opened Prelude
  import opened AgentStream
  import opened StreamHandoff
  import Queue = StreamQueue
  import Recovery = StreamRecovery

  const WAKE := Key(0, 0)
  const FILE := DeliveryFile(0, 0, Some(0))
  const OPEN_ROW := Row(0, true, Some(0), false, 10)
  const BLANK := Persist(None, [])
  const START := Sys([OPEN_ROW], {}, 0, None, BLANK, BLANK, multiset{}, {}, Idle, map[], {}, {})

  /** One delivery, up to the moment its job is on disk. */
  const DELIVERED := [Connect, SendBatch(1), Receive, Check, Enqueue, Write]

  lemma NextState(s: Sys, es: seq<Event>, i: nat, t: Sys)
    requires i < |es| && Run(s, es[..i]) == t
    ensures Run(s, es[..i+1]) == Apply(t, es[i])
  {
    assert es[..i+1][..i] == es[..i];
  }

  lemma EmptyRun(s: Sys)
    ensures Run(s, []) == s
  {}

  lemma ConnectsAfresh(s: Sys)
    requires s.handler == Idle && s.conn.None? && s.mem.cursor.None?
    ensures Apply(s, Connect) == s.(conn := Some(Conn(0, [])))
  {}

  lemma SendsTheOnlyRow(s: Sys)
    requires s.rows == START.rows && s.now == 0 && s.conn == Some(Conn(0, []))
    ensures Apply(s, SendBatch(1)) == s.(conn := Some(Conn(1, [0])))
  {
    var none: seq<nat> := [];
    assert ListPending(s.rows, 1, 0, 0) == none;
    assert ListPending(s.rows, 0, 0, 1) == [0];
    assert none + [0] == [0];
  }

  lemma ReceivesTheOnlyRow(s: Sys)
    requires s.rows == START.rows && s.handler == Idle && s.conn == Some(Conn(1, [0]))
    ensures Apply(s, Receive) == s.(conn := Some(Conn(1, [])), handler := Checking(0))
  {
    var none: seq<nat> := [];
    assert [0 as nat][1..] == none;
  }

  lemma Arrival()
    ensures Run(START, DELIVERED[..3]) == START.(conn := Some(Conn(1, [])), handler := Checking(0))
  {
    hide Run, Apply;
    var s := START;
    assert Run(s, DELIVERED[..0]) == s by { EmptyRun(s); assert DELIVERED[..0] == []; }
    ConnectsAfresh(s);
    NextState(START, DELIVERED, 0, s);
    s := s.(conn := Some(Conn(0, [])));
    SendsTheOnlyRow(s);
    NextState(START, DELIVERED, 1, s);
    s := s.(conn := Some(Conn(1, [0])));
    ReceivesTheOnlyRow(s);
    NextState(START, DELIVERED, 2, s);
  }

  lemma Delivery()
    ensures Run(START, DELIVERED) == START.(conn := Some(Conn(1, [])), queue := {FILE}, handler := Acking(0))
  {
    hide Run, ListPending;
    Arrival();
    var s := START.(conn := Some(Conn(1, [])), handler := Checking(0));
    NextState(START, DELIVERED, 3, s);
    s := s.(handler := Enqueuing(0));
    NextState(START, DELIVERED, 4, s);
    s := s.(handler := Writing(0));
    NextState(START, DELIVERED, 5, s);
    assert DELIVERED[..6] == DELIVERED;
  }

  // ---------- overlapping drains ----------

  /** The acknowledgement is lost; on redelivery a timer's drain finishes between the handler's checks and its write. */
  const OVERLAP := DELIVERED + [FailHandler, Pick(0, FILE), HookAccepts(0),
                                Connect, SendBatch(1), Receive, Check, Remove(0), Enqueue, Complete(0), Write]

  lemma OverlapDrainStarts()
    ensures Run(START, OVERLAP[..9]) == START.(queue := {FILE}, drains := map[0 := Accepted(FILE)], accepted := {WAKE})
  {
    hide Run;
    Delivery();
    assert OVERLAP[..6] == DELIVERED;
    var s := START.(conn := Some(Conn(1, [])), queue := {FILE}, handler := Acking(0));
    NextState(START, OVERLAP, 6, s);
    s := START.(queue := {FILE});
    NextState(START, OVERLAP, 7, s);
    s := s.(drains := map[0 := Trying(FILE)]);
    NextState(START, OVERLAP, 8, s);
  }

  lemma OverlapSecondDelivery()
    ensures Run(START, OVERLAP[..13]) == START.(conn := Some(Conn(1, [])), queue := {FILE}, handler := Enqueuing(0),
                                                drains := map[0 := Accepted(FILE)], accepted := {WAKE})
  {
    hide Run, ListPending, Resolve;
    OverlapDrainStarts();
    var s := START.(queue := {FILE}, drains := map[0 := Accepted(FILE)], accepted := {WAKE});
    ConnectsAfresh(s);
    NextState(START, OVERLAP, 9, s);
    s := s.(conn := Some(Conn(0, [])));
    SendsTheOnlyRow(s);
    NextState(START, OVERLAP, 10, s);
    s := s.(conn := Some(Conn(1, [0])));
    ReceivesTheOnlyRow(s);
    NextState(START, OVERLAP, 11, s);
    s := s.(conn := Some(Conn(1, [])), handler := Checking(0));
    NextState(START, OVERLAP, 12, s);
  }

  /** With overlapping drains a wake can be back in the queue after it was completed. */
  lemma OverlappingDrainsRequeueACompletedWake()
    ensures Initial(START)
    ensures var end := Run(START, OVERLAP); Queued(end.queue, WAKE) && WAKE in end.mem.completed
    ensures !Queue.SerialRun(START, OVERLAP)
  {
    hide Run;
    OverlapSecondDelivery();
    var s := START.(conn := Some(Conn(1, [])), queue := {FILE}, handler := Enqueuing(0),
                    drains := map[0 := Accepted(FILE)], accepted := {WAKE});
    NextState(START, OVERLAP, 13, s);
    s := s.(queue := {}, drains := map[0 := Removed(FILE)]);
    assert OVERLAP[..|OVERLAP|-1] == OVERLAP[..16];
    NextState(START, OVERLAP, 14, s);
    s := s.(handler := Writing(0));
    NextState(START, OVERLAP, 15, s);
    assert s.drains - {0} == map[];
    s := s.(drains := map[], mem := Persist(None, Remember([], WAKE)));
    NextState(START, OVERLAP, 16, s);
    assert OVERLAP[..17] == OVERLAP;
    assert FILE in Run(START, OVERLAP).queue;
    RememberMovesToFront([], WAKE);
    OverlapIsNotSerial();
  }

  lemma OverlapIsNotSerial()
    requires var end := Run(START, OVERLAP); FILE in end.queue && WAKE in end.mem.completed
    ensures !Queue.SerialRun(START, OVERLAP)
  {
    hide Run;
    if Queue.SerialRun(START, OVERLAP) {
      Queue.SerialQueueIsClean(START, OVERLAP, FILE, FILE);
      assert false;
    }
  }

  // ---------- a save that lands too late ----------

  const DONE_ROW := OPEN_ROW.(acked := true)
  const PAST := Persist(Some(0), [])

  /** A drain's save from before the acknowledgement lands after the recovery's own; then the bridge crashes. */
  const LATE := DELIVERED + [Snapshot, ServerAck, SetCursor, CutConn, Tick(11), Connect, RecoverSave,
                             RecoverBegin({}, [WAKE]), RecoverDrop(FILE), Land(BLANK), Crash]

  lemma LateCursorIsSaved()
    ensures Run(START, LATE[..9]) == START.(rows := [DONE_ROW], conn := Some(Conn(1, [])), mem := PAST, saving := multiset{BLANK}, queue := {FILE})
  {
    hide Run, ListPending, Resolve;
    Delivery();
    assert LATE[..6] == DELIVERED;
    var s := START.(conn := Some(Conn(1, [])), queue := {FILE}, handler := Acking(0));
    NextState(START, LATE, 6, s);
    s := s.(saving := multiset{BLANK});
    NextState(START, LATE, 7, s);
    s := s.(rows := [DONE_ROW], handler := Saving(0));
    NextState(START, LATE, 8, s);
  }

  lemma LateConnectionIsRefused()
    ensures Run(START, LATE[..12]) == START.(rows := [DONE_ROW], now := 11, mem := PAST, saving := multiset{BLANK, PAST}, queue := {FILE}, handler := Recording(PAST))
  {
    hide Run, ListPending;
    LateCursorIsSaved();
    var s := START.(rows := [DONE_ROW], conn := Some(Conn(1, [])), mem := PAST, saving := multiset{BLANK}, queue := {FILE});
    NextState(START, LATE, 9, s);
    s := s.(conn := None);
    NextState(START, LATE, 10, s);
    s := s.(now := 11);
    NextState(START, LATE, 11, s);
  }

  lemma LateRecoveryStarts()
    ensures Run(START, LATE[..13]) == START.(rows := [DONE_ROW], now := 11, mem := PAST, disk := PAST, saving := multiset{BLANK}, queue := {FILE}, handler := Listing)
  {
    hide Run, ListPending;
    LateConnectionIsRefused();
    var s := START.(rows := [DONE_ROW], now := 11, mem := PAST, saving := multiset{BLANK, PAST}, queue := {FILE}, handler := Recording(PAST));
    NextState(START, LATE, 12, s);
    assert multiset{BLANK, PAST} - multiset{PAST} == multiset{BLANK};
  }

  lemma ListingIsValid()
    ensures ValidListing([DONE_ROW], {}, {}, [WAKE]) && !Ended([DONE_ROW], WAKE)
  {
    assert [DONE_ROW][0].WakeKey() == Some(WAKE);
    assert [WAKE][0] == WAKE;
  }

  lemma LateRecoveryDrops()
    ensures Run(START, LATE[..15]) == START.(rows := [DONE_ROW], now := 11, mem := PAST, disk := PAST, saving := multiset{BLANK},
                                             handler := Recovering({}, [WAKE], 0, false), owed := {WAKE})
  {
    LateRecoveryStarts();
    ListingIsValid();
    hide Run, ValidListing;
    var s := START.(rows := [DONE_ROW], now := 11, mem := PAST, disk := PAST, saving := multiset{BLANK}, queue := {FILE}, handler := Listing);
    NextState(START, LATE, 13, s);
    s := s.(handler := Recovering({}, [WAKE], 0, false));
    NextState(START, LATE, 14, s);
    assert {FILE} - {FILE} == {};
  }

  lemma LateSaveWins()
    ensures Run(START, LATE) == START.(rows := [DONE_ROW], now := 11, owed := {WAKE})
  {
    hide Run;
    LateRecoveryDrops();
    var s := START.(rows := [DONE_ROW], now := 11, mem := PAST, disk := PAST, saving := multiset{BLANK},
                    handler := Recovering({}, [WAKE], 0, false), owed := {WAKE});
    NextState(START, LATE, 15, s);
    s := s.(disk := BLANK, saving := multiset{});
    NextState(START, LATE, 16, s);
    assert LATE[..17] == LATE;
  }

  /** An older cursor on disk makes the bridge resume instead of recovering, and the job it had dropped is lost. */
  lemma LateSaveLosesAnOwedWake()
    ensures Initial(START)
    ensures var end := Run(START, LATE);
            && |end.rows| == 1 && end.rows[0].acked && end.rows[0].WakeKey() == Some(WAKE) && !Recovery.Safe(end, WAKE)
            && Resolve(end.rows, end.now, end.mem.cursor).Fresh?
    ensures !Recovery.SettledSaves(START, LATE)
  {
    LateSaveWins();
    ListingIsValid();
    hide Run;
    LateIsNotSettled();
  }

  lemma LateIsNotSettled()
    requires var end := Run(START, LATE); |end.rows| == 1 && end.rows[0].acked && end.rows[0].WakeKey() == Some(WAKE) && !Recovery.Safe(end, WAKE)
    ensures !Recovery.SettledSaves(START, LATE)
  {
    hide Run, Recovery.Safe;
    if Recovery.SettledSaves(START, LATE) {
      Recovery.HandoffIsDurable(START, LATE, 0);
      assert false;
    }
  }
}
