/** Cursor safety: a resume never skips a delivery that is still owed. */
module StreamCursor {
  import opened Prelude
  import opened AgentStream

  predicate Settled(rows: seq<Row>, j: nat, now: Time)
    requires j < |rows|
  {
    rows[j].acked || rows[j].expiresAt <= now
  }

  ghost predicate SettledBelow(rows: seq<Row>, n: nat, now: Time)
  {
    n <= |rows| && forall j :: 0 <= j < n ==> Settled(rows, j, now)
  }

  ghost predicate Safe(rows: seq<Row>, now: Time, cursor: Option<nat>)
  {
    cursor.Some? ==> cursor.value < |rows| && rows[cursor.value].acked && SettledBelow(rows, cursor.value + 1, now)
  }

  ghost predicate Ascending(xs: seq<nat>)
  {
    forall i, j :: 0 <= i < j < |xs| ==> xs[i] < xs[j]
  }

  predicate OnRow(h: Handler) { h != Idle && !h.Recording? && h != Listing && !h.Recovering? }

  ghost predicate HandlerOk(s: Sys)
  {
    OnRow(s.handler) ==>
      && s.handler.row < |s.rows|
      && SettledBelow(s.rows, s.handler.row, s.now)
      && (s.handler.Saving? ==> s.rows[s.handler.row].acked)
  }

  ghost predicate ConnOk(s: Sys)
  {
    s.conn.Some? ==>
      var last, wire := s.conn.value.lastSent, s.conn.value.wire;
      && last <= |s.rows| && Ascending(wire)
      && (OnRow(s.handler) ==> s.handler.row < last)
      && (forall i :: 0 <= i < |wire| ==> wire[i] < last && (OnRow(s.handler) ==> s.handler.row < wire[i]))
      && (forall j :: 0 <= j < last && !Settled(s.rows, j, s.now) ==>
            j in wire || (OnRow(s.handler) && s.handler.row == j))
  }

  ghost predicate Inv(s: Sys)
  {
    && Safe(s.rows, s.now, s.mem.cursor) && Safe(s.rows, s.now, s.disk.cursor)
    && (forall p :: p in s.saving ==> Safe(s.rows, s.now, p.cursor))
    && HandlerOk(s) && ConnOk(s)
  }

  // ---------- what a batch contains ----------

  lemma {:induction false} ListPendingIsPending(rows: seq<Row>, from: nat, now: Time, limit: nat)
    ensures var out := ListPending(rows, from, now, limit);
            && |out| <= limit && Ascending(out)
            && (forall i :: 0 <= i < |out| ==> from <= out[i] && Pending(rows, out[i], now))
    decreases |rows| - from
  {
    if limit > 0 && from < |rows| {
      ListPendingIsPending(rows, from + 1, now, if Pending(rows, from, now) then limit - 1 else limit);
    }
  }

  /** A pending delivery is left out of a batch only when the batch is full and it lies beyond its end. */
  lemma {:induction false} ListPendingIsComplete(rows: seq<Row>, from: nat, now: Time, limit: nat, j: nat)
    requires from <= j && Pending(rows, j, now)
    ensures var out := ListPending(rows, from, now, limit);
            |out| < limit || (out != [] && j <= out[|out|-1]) ==> j in out
    decreases |rows| - from
  {
    if limit > 0 && from < |rows| {
      var out := ListPending(rows, from, now, limit);
      if Pending(rows, from, now) {
        var rest := ListPending(rows, from + 1, now, limit - 1);
        if from < j {
          ListPendingIsComplete(rows, from + 1, now, limit - 1, j);
          if rest == [] && |out| >= limit {
            assert out[|out|-1] == from;
          } else if j in rest {
            InTail(from, rest, j);
          }
        }
      } else {
        ListPendingIsComplete(rows, from + 1, now, limit, j);
      }
    }
  }

  lemma InTail(x: nat, rest: seq<nat>, j: nat)
    requires j in rest
    ensures j in [x] + rest
  {
    var m :| 0 <= m < |rest| && rest[m] == j;
    assert ([x] + rest)[m + 1] == j;
  }

  // ---------- each step ----------

  /** Settled deliveries stay settled while rows are added, acknowledged or expire. */
  ghost predicate Grows(rows: seq<Row>, now: Time, rows': seq<Row>, now': Time)
  {
    && |rows| <= |rows'| && now <= now'
    && forall j :: 0 <= j < |rows| ==> rows'[j].expiresAt == rows[j].expiresAt && (rows[j].acked ==> rows'[j].acked)
  }

  lemma SafeStays(rows: seq<Row>, now: Time, rows': seq<Row>, now': Time, cursor: Option<nat>)
    requires Grows(rows, now, rows', now') && Safe(rows, now, cursor)
    ensures Safe(rows', now', cursor)
  {
    if cursor.Some? {
      forall j | 0 <= j < cursor.value + 1 ensures Settled(rows', j, now') {
        assert Settled(rows, j, now);
      }
    }
  }

  /** The part of the invariant about cursors carries over whenever rows only grow. */
  lemma CursorsStay(s: Sys, s': Sys)
    requires Inv(s) && Grows(s.rows, s.now, s'.rows, s'.now)
    requires s'.mem.cursor == s.mem.cursor || s'.mem.cursor == None || s'.mem == s.disk
    requires s'.disk == s.disk || s'.disk in s.saving
    requires s'.saving <= s.saving + multiset{s.mem}
    ensures Safe(s'.rows, s'.now, s'.mem.cursor) && Safe(s'.rows, s'.now, s'.disk.cursor)
    ensures forall p :: p in s'.saving ==> Safe(s'.rows, s'.now, p.cursor)
  {
    SafeStays(s.rows, s.now, s'.rows, s'.now, s.mem.cursor);
    SafeStays(s.rows, s.now, s'.rows, s'.now, s.disk.cursor);
    forall p | p in s.saving ensures Safe(s'.rows, s'.now, p.cursor) {
      SafeStays(s.rows, s.now, s'.rows, s'.now, p.cursor);
    }
  }

  lemma HandlerStays(s: Sys, s': Sys)
    requires Inv(s) && Grows(s.rows, s.now, s'.rows, s'.now) && s'.handler == s.handler
    ensures HandlerOk(s')
  {
    if OnRow(s.handler) {
      forall j | 0 <= j < s.handler.row ensures Settled(s'.rows, j, s'.now) {
        assert Settled(s.rows, j, s.now);
      }
    }
  }

  lemma ConnStays(s: Sys, s': Sys)
    requires Inv(s) && Grows(s.rows, s.now, s'.rows, s'.now) && s'.handler == s.handler && s'.conn == s.conn
    ensures ConnOk(s')
  {
    if s.conn.Some? {
      forall j | 0 <= j < s.conn.value.lastSent && !Settled(s'.rows, j, s'.now)
        ensures j in s.conn.value.wire || (OnRow(s.handler) && s.handler.row == j)
      {
        assert !Settled(s.rows, j, s.now);
      }
    }
  }

  lemma ServerKeeps(s: Sys, e: Event)
    requires Inv(s) && ServerEvent(e)
    ensures Inv(ApplyServer(s, e))
  {
    var s' := ApplyServer(s, e);
    CursorsStay(s, s');
    HandlerStays(s, s');
    if e.SendBatch? && s.conn.Some? {
      BatchKeeps(s, e.limit);
    } else if !e.CutConn? {
      ConnStays(s, s');
    }
  }

  lemma BatchKeeps(s: Sys, limit: nat)
    requires Inv(s) && s.conn.Some?
    ensures ConnOk(ApplyServer(s, SendBatch(limit)))
  {
    var last, wire := s.conn.value.lastSent, s.conn.value.wire;
    var batch := ListPending(s.rows, last, s.now, limit);
    ListPendingIsPending(s.rows, last, s.now, limit);
    if batch != [] {
      var wire' := wire + batch;
      var last' := batch[|batch|-1] + 1;
      forall i | 0 <= i < |wire'| ensures wire'[i] < last' && (OnRow(s.handler) ==> s.handler.row < wire'[i]) {
        if i >= |wire| {
          assert wire'[i] == batch[i - |wire|];
        }
      }
      forall j | 0 <= j < last' && !Settled(s.rows, j, s.now)
        ensures j in wire' || (OnRow(s.handler) && s.handler.row == j)
      {
        if j >= last {
          ListPendingIsComplete(s.rows, last, s.now, limit, j);
        }
      }
    }
  }

  lemma ConnectKeeps(s: Sys)
    requires Inv(s)
    ensures Inv(ApplyHandler(s, Connect))
  {}

  lemma HeadIsLeast(wire: seq<nat>)
    requires Ascending(wire) && wire != []
    ensures Ascending(wire[1..]) && (forall i :: 0 <= i < |wire[1..]| ==> wire[0] < wire[1..][i])
    ensures forall j :: j in wire ==> wire[0] <= j && (j == wire[0] || j in wire[1..])
  {
    assert wire == [wire[0]] + wire[1..];
  }

  lemma ReceiveKeeps(s: Sys)
    requires Inv(s)
    ensures Inv(ApplyHandler(s, Receive))
  {
    hide Ascending;
    var s' := ApplyHandler(s, Receive);
    if s' != s {
      var last, wire := s.conn.value.lastSent, s.conn.value.wire;
      var i := wire[0];
      HeadIsLeast(wire);
      assert forall j :: 0 <= j < i ==> Settled(s.rows, j, s.now);
    }
  }

  lemma AckKeeps(s: Sys)
    requires Inv(s)
    ensures Inv(ApplyHandler(s, ServerAck))
  {
    var s' := ApplyHandler(s, ServerAck);
    if s' != s {
      assert Grows(s.rows, s.now, s'.rows, s'.now);
      CursorsStay(s, s');
      forall j | 0 <= j < s.handler.row ensures Settled(s'.rows, j, s'.now) {
        assert Settled(s.rows, j, s.now);
      }
      if s.conn.Some? {
        forall j | 0 <= j < s.conn.value.lastSent && !Settled(s'.rows, j, s'.now)
          ensures j in s.conn.value.wire || s'.handler.row == j
        {
          assert !Settled(s.rows, j, s.now);
        }
      }
    }
  }

  lemma SetCursorKeeps(s: Sys)
    requires Inv(s)
    ensures Inv(ApplyHandler(s, SetCursor))
  {
    if s.handler.Saving? {
      assert Settled(s.rows, s.handler.row, s.now);
      assert SettledBelow(s.rows, s.handler.row + 1, s.now);
    }
  }

  lemma HandlerKeeps(s: Sys, e: Event)
    requires Inv(s) && !ServerEvent(e) && !DrainEvent(e) && !DiskEvent(e)
    ensures Inv(ApplyHandler(s, e))
  {
    if e.Connect? {
      ConnectKeeps(s);
    } else if e.Receive? {
      ReceiveKeeps(s);
    } else if e.ServerAck? {
      AckKeeps(s);
    } else if e.SetCursor? {
      SetCursorKeeps(s);
    } else if e.RecoverSave? {
      RecoverSaveKeeps(s);
    } else {
      QuietKeeps(s, e);
    }
  }

  lemma RecoverSaveKeeps(s: Sys)
    requires Inv(s)
    ensures Inv(ApplyHandler(s, RecoverSave))
  {
    hide SettledBelow;
  }

  /** The rows and the clock stand still; the handler stays on its row, or leaves it. */
  lemma MovesOn(s: Sys, s': Sys)
    requires Inv(s) && s'.rows == s.rows && s'.now == s.now && s'.disk == s.disk && s'.saving == s.saving
    requires s'.mem.cursor == s.mem.cursor || s'.mem.cursor == None
    requires s'.conn == s.conn || s'.conn == None
    requires if OnRow(s'.handler) then OnRow(s.handler) && s'.handler.row == s.handler.row && !s'.handler.Saving?
             else !OnRow(s.handler) || s'.conn == None
    ensures Inv(s')
  {
    hide SettledBelow, Settled, Ascending;
  }

  lemma QuietKeeps(s: Sys, e: Event)
    requires Inv(s) && !ServerEvent(e) && !DrainEvent(e) && !DiskEvent(e)
    requires !e.Connect? && !e.Receive? && !e.ServerAck? && !e.SetCursor? && !e.RecoverSave?
    ensures Inv(ApplyHandler(s, e))
  {
    hide AlreadyHandled, ForgetRoom, FileOf, ValidListing, Inv;
    var s' := ApplyHandler(s, e);
    if s' != s {
      MovesOn(s, s');
    }
  }

  lemma DrainKeeps(s: Sys, e: Event)
    requires Inv(s) && DrainEvent(e)
    ensures Inv(ApplyDrain(s, e))
  {
    hide Remember, SettledBelow;
    var s' := ApplyDrain(s, e);
    CursorsStay(s, s');
    HandlerStays(s, s');
    ConnStays(s, s');
  }

  lemma DiskKeeps(s: Sys, e: Event)
    requires Inv(s) && DiskEvent(e)
    ensures Inv(ApplyDisk(s, e))
  {
    hide SettledBelow;
    var s' := ApplyDisk(s, e);
    CursorsStay(s, s');
    if !e.Crash? {
      HandlerStays(s, s');
      ConnStays(s, s');
    }
  }

  lemma ApplyKeeps(s: Sys, e: Event)
    requires Inv(s)
    ensures Inv(Apply(s, e))
  {
    hide Inv, ApplyServer, ApplyHandler, ApplyDrain, ApplyDisk;
    if ServerEvent(e) {
      ServerKeeps(s, e);
    } else if DrainEvent(e) {
      DrainKeeps(s, e);
    } else if DiskEvent(e) {
      DiskKeeps(s, e);
    } else {
      HandlerKeeps(s, e);
    }
  }

  lemma {:induction false} RunKeeps(s: Sys, es: seq<Event>)
    requires Inv(s)
    ensures Inv(Run(s, es))
  {
    if es != [] {
      RunKeeps(s, es[..|es|-1]);
      ApplyKeeps(Run(s, es[..|es|-1]), es[|es|-1]);
    }
  }

  lemma InitialOk(s: Sys)
    requires Initial(s)
    ensures Inv(s) && InOrder(s)
  {}

  // ---------- acknowledgements happen in order ----------

  predicate NoneAckedAfter(rows: seq<Row>, i: nat)
  {
    forall j :: i < j < |rows| ==> !rows[j].acked
  }

  /** Before an acknowledged delivery all are settled; after one that is on its way or being handled none is acknowledged. */
  ghost predicate InOrder(s: Sys)
  {
    && (forall j :: 0 <= j < |s.rows| && s.rows[j].acked ==> SettledBelow(s.rows, j, s.now))
    && (s.conn.Some? ==> forall i :: i in s.conn.value.wire ==> NoneAckedAfter(s.rows, i))
    && (OnRow(s.handler) ==> NoneAckedAfter(s.rows, s.handler.row))
  }

  lemma SettledBelowStays(rows: seq<Row>, now: Time, rows': seq<Row>, now': Time, n: nat)
    requires Grows(rows, now, rows', now') && SettledBelow(rows, n, now)
    ensures SettledBelow(rows', n, now')
  {
    forall j | 0 <= j < n ensures Settled(rows', j, now') {
      assert Settled(rows, j, now);
    }
  }

  lemma PendingIsUnacked(s: Sys, i: nat)
    requires InOrder(s) && Pending(s.rows, i, s.now)
    ensures NoneAckedAfter(s.rows, i)
  {
    forall j | i < j < |s.rows| ensures !s.rows[j].acked {
      assert s.rows[j].acked ==> Settled(s.rows, i, s.now);
    }
  }

  lemma ServerInOrder(s: Sys, e: Event)
    requires Inv(s) && InOrder(s) && ServerEvent(e)
    ensures InOrder(ApplyServer(s, e))
  {
    hide ListPending, SettledBelow, ConnOk, HandlerOk, Safe, Known;
    var s' := ApplyServer(s, e);
    forall j | 0 <= j < |s'.rows| && s'.rows[j].acked ensures SettledBelow(s'.rows, j, s'.now) {
      SettledBelowStays(s.rows, s.now, s'.rows, s'.now, j);
    }
    if e.SendBatch? && s.conn.Some? {
      var batch := ListPending(s.rows, s.conn.value.lastSent, s.now, e.limit);
      ListPendingIsPending(s.rows, s.conn.value.lastSent, s.now, e.limit);
      forall i | i in batch ensures NoneAckedAfter(s.rows, i) {
        PendingIsUnacked(s, i);
      }
    }
  }

  lemma AckInOrder(s: Sys)
    requires Inv(s) && InOrder(s)
    ensures InOrder(ApplyHandler(s, ServerAck))
  {
    hide SettledBelow, Safe;
    var s' := ApplyHandler(s, ServerAck);
    if s' != s {
      forall j | 0 <= j < |s'.rows| && s'.rows[j].acked ensures SettledBelow(s'.rows, j, s'.now) {
        SettledBelowStays(s.rows, s.now, s'.rows, s'.now, j);
      }
      if s.conn.Some? {
        forall i | i in s.conn.value.wire ensures NoneAckedAfter(s'.rows, i) {
          assert NoneAckedAfter(s.rows, i);
        }
      }
    }
  }

  /** Steps that leave the deliveries alone; the handler stays on its row, takes the next one, or stops. */
  lemma SameRowsInOrder(s: Sys, s': Sys)
    requires InOrder(s) && s'.rows == s.rows && s'.now == s.now
    requires s'.conn.Some? ==> if s.conn.Some? then forall i :: i in s'.conn.value.wire ==> i in s.conn.value.wire else s'.conn.value.wire == []
    requires OnRow(s'.handler) ==> (OnRow(s.handler) && s'.handler.row == s.handler.row) || (s.conn.Some? && s'.handler.row in s.conn.value.wire)
    ensures InOrder(s')
  {
    hide SettledBelow, NoneAckedAfter;
  }

  lemma HandlerInOrder(s: Sys, e: Event)
    requires InOrder(s) && !e.ServerAck?
    ensures InOrder(ApplyHandler(s, e))
  {
    hide InOrder, AlreadyHandled, ForgetRoom, FileOf, Resolve, ValidListing, MayDrop;
    var s' := ApplyHandler(s, e);
    if e.Receive? && s' != s {
      assert s.conn.value.wire[0] in s.conn.value.wire;
      assert forall i :: i in s'.conn.value.wire ==> i in s.conn.value.wire;
    }
    SameRowsInOrder(s, s');
  }

  lemma OthersInOrder(s: Sys, e: Event)
    requires InOrder(s) && (DrainEvent(e) || DiskEvent(e))
    ensures InOrder(Apply(s, e))
  {
    hide InOrder, Remember;
    SameRowsInOrder(s, Apply(s, e));
  }

  lemma StaysInOrder(s: Sys, e: Event)
    requires Inv(s) && InOrder(s)
    ensures InOrder(Apply(s, e))
  {
    hide Inv, InOrder, ApplyServer, ApplyHandler, ApplyDrain, ApplyDisk;
    if ServerEvent(e) {
      ServerInOrder(s, e);
    } else if e.ServerAck? {
      AckInOrder(s);
    } else if DrainEvent(e) || DiskEvent(e) {
      OthersInOrder(s, e);
    } else {
      HandlerInOrder(s, e);
    }
  }

  /** When a delivery is acknowledged, every earlier one is acknowledged or has expired. */
  lemma {:induction false} AcknowledgementsAreInOrder(s: Sys, es: seq<Event>, i: nat, j: nat)
    requires Initial(s) && i < j < |Run(s, es).rows| && Run(s, es).rows[j].acked
    ensures !Pending(Run(s, es).rows, i, Run(s, es).now)
  {
    OrderHolds(s, es);
    assert SettledBelow(Run(s, es).rows, j, Run(s, es).now) && Settled(Run(s, es).rows, i, Run(s, es).now);
  }

  lemma {:induction false} OrderHolds(s: Sys, es: seq<Event>)
    requires Initial(s)
    ensures Inv(Run(s, es)) && InOrder(Run(s, es))
  {
    hide Inv, InOrder, Apply;
    if es == [] {
      InitialOk(s);
    } else {
      OrderHolds(s, es[..|es|-1]);
      ApplyKeeps(Run(s, es[..|es|-1]), es[|es|-1]);
      StaysInOrder(Run(s, es[..|es|-1]), es[|es|-1]);
    }
  }

  /** Sent are exactly deliveries that are unacknowledged and unexpired. */
  lemma PendingMeans(rows: seq<Row>, j: nat, now: Time)
    ensures Pending(rows, j, now) <==> j < |rows| && !rows[j].acked && now < rows[j].expiresAt
  {}

  /** A connection starts afresh without a cursor, goes on after a cursor whose delivery is known, acknowledged and unexpired, and otherwise has to recover. */
  lemma ResumeAnswers(rows: seq<Row>, now: Time, cursor: Option<nat>)
    ensures var answer := Resolve(rows, now, cursor);
            && (answer == Fresh <==> cursor == None)
            && (answer == ReplayRequired <==> cursor != None && !(cursor.value < |rows| && rows[cursor.value].acked && now < rows[cursor.value].expiresAt))
            && (answer.Resumed? ==> answer.after == cursor.value + 1)
  {}

  /** What the connection does with that answer: it starts at the first delivery, behind the cursor, or with saving for a recovery. */
  lemma ConnectFollows(s: Sys)
    requires s.handler == Idle && s.conn.None?
    ensures var s', answer := Apply(s, Connect), Resolve(s.rows, s.now, s.mem.cursor);
            && (answer.Fresh? ==> s' == s.(conn := Some(Conn(0, []))))
            && (answer.Resumed? ==> s' == s.(conn := Some(Conn(s.mem.cursor.value + 1, []))))
            && (answer.ReplayRequired? ==> s' == s.(handler := Recording(s.mem), saving := s.saving + multiset{s.mem}))
  {}

  // ---------- the theorems ----------

  /** Every delivery that is neither acknowledged nor expired lies above the saved cursor, in memory and on disk. */
  lemma OwedDeliveriesLieAboveTheCursor(s: Sys, es: seq<Event>, j: nat)
    requires Initial(s) && Pending(Run(s, es).rows, j, Run(s, es).now)
    ensures var end := Run(s, es);
            && (end.disk.cursor.Some? ==> end.disk.cursor.value < j)
            && (end.mem.cursor.Some? ==> end.mem.cursor.value < j)
  {
    InitialOk(s);
    RunKeeps(s, es);
    assert !Settled(Run(s, es).rows, j, Run(s, es).now);
  }

  /** What a stream sends in so many batches of at most `limit`, each starting after the last one sent. */
  function Batches(rows: seq<Row>, from: nat, now: Time, limit: nat, rounds: nat): seq<nat>
    decreases rounds
  {
    var batch := ListPending(rows, from, now, limit);
    if rounds == 0 || batch == [] then [] else batch + Batches(rows, batch[|batch|-1] + 1, now, limit, rounds - 1)
  }

  lemma {:induction false} BatchesReach(rows: seq<Row>, from: nat, now: Time, limit: nat, rounds: nat, j: nat)
    requires limit > 0 && from <= j && Pending(rows, j, now) && |rows| - from <= rounds
    ensures j in Batches(rows, from, now, limit, rounds)
    decreases rounds
  {
    var batch := ListPending(rows, from, now, limit);
    ListPendingIsPending(rows, from, now, limit);
    ListPendingIsComplete(rows, from, now, limit, j);
    if batch != [] && j > batch[|batch|-1] {
      BatchesReach(rows, batch[|batch|-1] + 1, now, limit, rounds - 1, j);
    }
  }

  /** Batches send pending deliveries only, in order, none twice. */
  lemma {:induction false} BatchesAscend(rows: seq<Row>, from: nat, now: Time, limit: nat, rounds: nat)
    ensures var sent := Batches(rows, from, now, limit, rounds);
            Ascending(sent) && forall i :: 0 <= i < |sent| ==> from <= sent[i] && Pending(rows, sent[i], now)
    decreases rounds
  {
    var batch := ListPending(rows, from, now, limit);
    if rounds > 0 && batch != [] {
      ListPendingIsPending(rows, from, now, limit);
      BatchesAscend(rows, batch[|batch|-1] + 1, now, limit, rounds - 1);
      AscendingJoin(batch, Batches(rows, batch[|batch|-1] + 1, now, limit, rounds - 1));
    }
  }

  lemma AscendingJoin(a: seq<nat>, b: seq<nat>)
    requires Ascending(a) && Ascending(b) && a != [] && forall i :: 0 <= i < |b| ==> a[|a|-1] < b[i]
    ensures Ascending(a + b)
  {}

  /** However the bridge resumes from what is on disk, batches of any size send exactly what it is still owed. */
  lemma ResumeSkipsNothing(s: Sys, es: seq<Event>, j: nat, limit: nat)
    requires Initial(s) && limit > 0 && !Resolve(Run(s, es).rows, Run(s, es).now, Run(s, es).disk.cursor).ReplayRequired?
    ensures var end := Run(s, es);
            var resume := Resolve(end.rows, end.now, end.disk.cursor);
            var sent := Batches(end.rows, if resume.Resumed? then resume.after else 0, end.now, limit, |end.rows|);
            Ascending(sent) && (j in sent <==> Pending(end.rows, j, end.now))
  {
    hide Run, Batches, Ascending;
    var end := Run(s, es);
    var resume := Resolve(end.rows, end.now, end.disk.cursor);
    var from := if resume.Resumed? then resume.after else 0;
    BatchesAscend(end.rows, from, end.now, limit, |end.rows|);
    if Pending(end.rows, j, end.now) {
      OwedDeliveriesLieAboveTheCursor(s, es, j);
      BatchesReach(end.rows, from, end.now, limit, |end.rows|, j);
    }
  }

  /** While a stream is open, whatever is still owed is on the wire, in the handler's hands, or will be sent. */
  lemma OpenStreamsCoverWhatIsOwed(s: Sys, es: seq<Event>, j: nat)
    requires Initial(s) && Run(s, es).conn.Some? && Pending(Run(s, es).rows, j, Run(s, es).now)
    ensures var end := Run(s, es);
            j in end.conn.value.wire || j >= end.conn.value.lastSent || (OnRow(end.handler) && end.handler.row == j)
  {
    InitialOk(s);
    RunKeeps(s, es);
    assert !Settled(Run(s, es).rows, j, Run(s, es).now);
  }
}
