/** Durable handoff: a wake the server counts as delivered is never lost by the bridge. */
module StreamHandoff {
  import opened Prelude
  import opened AgentStream
  import Cursor = StreamCursor

  // ---------- the completed list ----------

  ghost predicate NoDup(keys: seq<Key>)
  {
    forall i, j :: 0 <= i < j < |keys| ==> keys[i] != keys[j]
  }

  lemma NoDupCons(k: Key, keys: seq<Key>)
    requires NoDup(keys) && k !in keys
    ensures NoDup([k] + keys)
  {}

  lemma {:induction false} WithoutRemovesOne(keys: seq<Key>, k: Key)
    ensures forall x :: x in Without(keys, k) <==> x in keys && x != k
    ensures NoDup(keys) ==> NoDup(Without(keys, k))
    ensures |Without(keys, k)| <= |keys| && (k in keys ==> |Without(keys, k)| < |keys|)
  {
    if keys != [] {
      WithoutRemovesOne(keys[1..], k);
      assert keys == [keys[0]] + keys[1..];
      if NoDup(keys) && keys[0] != k {
        assert keys[0] !in keys[1..];
        NoDupCons(keys[0], Without(keys[1..], k));
      }
    }
  }

  /** The list stays duplicate-free and short; it gains the key, and loses at most the oldest one. */
  lemma {:induction false} RememberMovesToFront(keys: seq<Key>, k: Key)
    requires NoDup(keys)
    ensures var out := Remember(keys, k);
            && NoDup(out) && |out| <= 64 && out != [] && out[0] == k
            && (forall x :: x in out ==> x == k || x in keys)
            && (|keys| < 64 || (|keys| == 64 && k in keys) ==> forall x :: x in keys ==> x in out)
  {
    WithoutRemovesOne(keys, k);
    var all := [k] + Without(keys, k);
    NoDupCons(k, Without(keys, k));
    assert forall x :: x in keys ==> x in all;
  }

  lemma {:induction false} ForgetRoomRemovesARoom(keys: seq<Key>, r: RoomId)
    ensures forall x :: x in ForgetRoom(keys, r) <==> x in keys && x.room != r
    ensures NoDup(keys) ==> NoDup(ForgetRoom(keys, r))
    ensures |ForgetRoom(keys, r)| <= |keys|
  {
    if keys != [] {
      ForgetRoomRemovesARoom(keys[1..], r);
      assert keys == [keys[0]] + keys[1..];
    }
  }

  // ---------- the invariant of every run ----------

  /**
   * The wake was taken by the hook, is queued on disk, is no longer asked for because its room ended
   * or its turn was answered, or was dropped by a recovery that still has to restore it.
   */
  predicate Covered(s: Sys, k: Key)
  {
    k in s.accepted || Queued(s.queue, k) || Ended(s.rows, k) || k in s.answered || k in s.owed
  }

  ghost predicate ListOk(s: Sys, completed: seq<Key>)
  {
    NoDup(completed) && |completed| <= KEEP && forall k :: k in completed ==> k in s.accepted
  }

  ghost predicate RowsOk(s: Sys)
  {
    forall i :: 0 <= i < |s.rows| && s.rows[i].acked && s.rows[i].WakeKey().Some? ==> Covered(s, s.rows[i].WakeKey().value)
  }

  ghost predicate ListsOk(s: Sys)
  {
    ListOk(s, s.mem.completed) && ListOk(s, s.disk.completed) && forall p :: p in s.saving ==> ListOk(s, p.completed)
  }

  ghost predicate DrainsOk(s: Sys)
  {
    forall d :: d in s.drains && !s.drains[d].Trying? && s.drains[d].file.WakeKey().Some?
      ==> s.drains[d].file.WakeKey().value in s.accepted
  }

  ghost predicate HandlerOk(s: Sys)
  {
    && (Cursor.OnRow(s.handler) ==> s.handler.row < |s.rows|)
    && (s.handler.Ending? ==> !s.rows[s.handler.row].turnReady)
    && (s.handler.Acking? || s.handler.Saving?
        ==> s.rows[s.handler.row].WakeKey().Some? ==> Covered(s, s.rows[s.handler.row].WakeKey().value))
  }

  /** The keys the bridge still works with: queued, being drained, or dropped by a recovery. */
  ghost predicate Working(s: Sys, k: Key)
  {
    Queued(s.queue, k) || Drained(s.drains, k) || k in s.owed
  }

  ghost predicate Drained(drains: map<nat, Drain>, k: Key)
  {
    exists d :: d in drains && drains[d].file.WakeKey() == Some(k)
  }

  ghost predicate WorkOk(s: Sys)
  {
    forall k :: Working(s, k) ==> Known(s.rows, k)
  }

  /** An entry the recovery is done with. */
  predicate Restored(s: Sys, k: Key)
  {
    k in s.accepted || Queued(s.queue, k) || Ended(s.rows, k)
  }

  /** While a recovery works through its listing. */
  ghost predicate RecoveryOk(s: Sys)
  {
    s.handler.Recovering? ==>
      && s.handler.next <= |s.handler.actionable|
      && (forall k :: Working(s, k) || k in s.handler.actionable ==> k.room in s.handler.ended ==> Ended(s.rows, k))
      && (forall i, j :: 0 <= i < j < |s.handler.actionable| ==> s.handler.actionable[i].room != s.handler.actionable[j].room)
      && (forall k :: k in s.handler.actionable ==> Known(s.rows, k))
      && (forall k :: Working(s, k) ==> Asked(s.rows, s.answered, s.handler.actionable, k))
      && (forall j :: 0 <= j < s.handler.next ==> Restored(s, s.handler.actionable[j]))
  }

  ghost predicate Inv(s: Sys)
  {
    RowsOk(s) && ListsOk(s) && DrainsOk(s) && HandlerOk(s) && WorkOk(s) && RecoveryOk(s)
  }

  // ---------- what carries over ----------

  /** The server forgets nothing. */
  ghost predicate ServerGrows(s: Sys, s': Sys)
  {
    && |s.rows| <= |s'.rows| && s.answered <= s'.answered
    && forall i :: 0 <= i < |s.rows| ==> s'.rows[i].room == s.rows[i].room && s'.rows[i].turnReady == s.rows[i].turnReady && s'.rows[i].turn == s.rows[i].turn
  }

  lemma ServerFactsStay(s: Sys, s': Sys)
    requires ServerGrows(s, s')
    ensures forall k :: Ended(s.rows, k) ==> Ended(s'.rows, k)
    ensures forall k :: Known(s.rows, k) ==> Known(s'.rows, k)
    ensures forall act, k :: Asked(s.rows, s.answered, act, k) ==> Asked(s'.rows, s'.answered, act, k)
  {
    forall k | Ended(s.rows, k) ensures Ended(s'.rows, k) {
      var i, j :| 0 <= i < j < |s.rows| && s.rows[i].WakeKey() == Some(k) && !s.rows[j].turnReady && s.rows[j].room == k.room;
      assert s'.rows[i].WakeKey() == Some(k) && !s'.rows[j].turnReady && s'.rows[j].room == k.room;
    }
    forall k | Known(s.rows, k) ensures Known(s'.rows, k) {
      var i :| 0 <= i < |s.rows| && s.rows[i].WakeKey() == Some(k);
      assert s'.rows[i].WakeKey() == Some(k);
    }
  }

  /** Nothing the invariant speaks of is lost in the step. */
  ghost predicate Keeps(s: Sys, s': Sys)
  {
    && (forall k :: Covered(s, k) ==> Covered(s', k))
    && (forall k :: Restored(s, k) ==> Restored(s', k))
    && (forall k :: Working(s', k) ==> Working(s, k))
    && s.accepted <= s'.accepted
  }

  /** Steps of the bridge that leave the server, the lists and the handler alone. */
  lemma QueueStepKeeps(s: Sys, s': Sys)
    requires Inv(s) && Keeps(s, s')
    requires s'.rows == s.rows && s'.answered == s.answered && s'.handler == s.handler
    requires s'.mem == s.mem && s'.disk == s.disk && s'.saving == s.saving && DrainsOk(s')
    ensures Inv(s')
  {
    hide Covered, Restored, Working, Known, Asked, Ended;
  }

  lemma PutCovers(s: Sys, f: File)
    ensures var s' := Put(s, f);
            && (f.WakeKey().Some? ==> Queued(s'.queue, f.WakeKey().value))
            && (forall k :: Covered(s, k) ==> Covered(s', k)) && (forall k :: Restored(s, k) ==> Restored(s', k))
            && (forall k :: Working(s', k) ==> Working(s, k) || f.WakeKey() == Some(k))
  {
    var s' := Put(s, f);
    assert f in s'.queue;
    forall k | Queued(s.queue, k) ensures Queued(s'.queue, k) {
      var g :| g in s.queue && g.WakeKey() == Some(k);
      assert g in s'.queue;
    }
  }

  /** Taking one file away uncovers its own key only. */
  lemma RemovedFile(queue: set<File>, f: File, k: Key)
    ensures Queued(queue - {f}, k) ==> Queued(queue, k)
    ensures Queued(queue, k) && f.WakeKey() != Some(k) ==> Queued(queue - {f}, k)
    ensures f !in queue ==> queue - {f} == queue
  {
    if Queued(queue, k) && f.WakeKey() != Some(k) {
      var g :| g in queue && g.WakeKey() == Some(k);
      assert g in queue - {f};
    }
    if Queued(queue - {f}, k) {
      var g :| g in queue - {f} && g.WakeKey() == Some(k);
      assert g in queue;
    }
  }

  // ---------- each step ----------

  lemma ServerKeeps(s: Sys, e: Event)
    requires Inv(s) && ServerEvent(e)
    ensures Inv(ApplyServer(s, e))
  {
    hide ListPending, Inv;
    var s' := ApplyServer(s, e);
    assert ServerGrows(s, s');
    assert forall i :: |s.rows| <= i < |s'.rows| ==> !s'.rows[i].acked;
    GrownServerKeeps(s, s');
  }

  /** The server learns more, and acknowledges nothing. */
  lemma GrownServerKeeps(s: Sys, s': Sys)
    requires Inv(s) && ServerGrows(s, s')
    requires forall i :: 0 <= i < |s'.rows| && s'.rows[i].acked ==> i < |s.rows| && s.rows[i].acked
    requires s'.mem == s.mem && s'.disk == s.disk && s'.saving == s.saving && s'.handler == s.handler
    requires s'.queue == s.queue && s'.drains == s.drains && s'.accepted == s.accepted && s'.owed == s.owed
    ensures Inv(s')
  {
    ServerFactsStay(s, s');
    hide Queued, Ended, Known, Asked, Drained;
    assert forall k :: Covered(s, k) ==> Covered(s', k);
    assert forall k :: Restored(s, k) ==> Restored(s', k);
    assert forall k :: Working(s', k) == Working(s, k);
    hide Covered, Restored, Working, ListOk;
    assert forall i :: 0 <= i < |s.rows| ==> s'.rows[i].WakeKey() == s.rows[i].WakeKey();
  }

  /** Every way the handler can leave a wake alone before acknowledging it. */
  lemma HandledMeansRestored(s: Sys, f: File)
    requires Inv(s) && AlreadyHandled(s.mem.completed, s.queue, f) && f.WakeKey().Some?
    ensures Restored(s, f.WakeKey().value) && Covered(s, f.WakeKey().value)
  {}

  lemma SameState(s: Sys, s': Sys)
    requires s'.rows == s.rows && s'.answered == s.answered && s'.accepted == s.accepted && s'.queue == s.queue
    requires s'.owed == s.owed && s'.drains == s.drains
    ensures forall k :: Covered(s', k) == Covered(s, k) && Restored(s', k) == Restored(s, k) && Working(s', k) == Working(s, k)
  {}

  /** Steps that only move the handler, and may save the state. */
  lemma MovedHandlerKeeps(s: Sys, s': Sys)
    requires Inv(s) && HandlerOk(s') && !s'.handler.Recovering?
    requires s'.rows == s.rows && s'.answered == s.answered && s'.accepted == s.accepted && s'.queue == s.queue
    requires s'.owed == s.owed && s'.drains == s.drains && s'.mem.completed == s.mem.completed
    requires s'.disk == s.disk || s'.disk in s.saving
    requires s'.saving <= s.saving + multiset{s.mem}
    ensures Inv(s')
  {
    hide Covered, Working, Known, Restored, Asked, Ended, HandlerOk, NoDup;
    SameState(s, s');
  }

  lemma ConnectKeeps(s: Sys)
    requires Inv(s)
    ensures Inv(ApplyHandler(s, Connect))
  {
    hide Resolve, Inv, Covered;
    var s' := ApplyHandler(s, Connect);
    if s' != s {
      MovedHandlerKeeps(s, s');
    }
  }

  lemma RecoverSaveKeeps(s: Sys)
    requires Inv(s)
    ensures Inv(ApplyHandler(s, RecoverSave))
  {
    hide Inv, Covered;
    var s' := ApplyHandler(s, RecoverSave);
    if s' != s {
      MovedHandlerKeeps(s, s');
    }
  }

  /** Receiving, the first check of a wake, moving the cursor and giving up leave the lists alone. */
  lemma MoveKeeps(s: Sys, e: Event)
    requires Inv(s) && Cursor.Inv(s) && Cursor.Inv(ApplyHandler(s, e))
    requires e.Receive? || e.Check? || e.SetCursor? || e.FailHandler?
    ensures Inv(ApplyHandler(s, e))
  {
    var s' := ApplyHandler(s, e);
    if s' != s {
      MovedHandlerIsOk(s, e);
      hide Inv, HandlerOk, Cursor.Inv;
      MovedHandlerKeeps(s, s');
    }
  }

  lemma MovedHandlerIsOk(s: Sys, e: Event)
    requires Inv(s) && Cursor.HandlerOk(ApplyHandler(s, e))
    requires e.Receive? || e.Check? || e.SetCursor? || e.FailHandler?
    ensures HandlerOk(ApplyHandler(s, e))
  {
    hide Cursor.SettledBelow, Covered, RecoveryOk, WorkOk, DrainsOk;
    var s' := ApplyHandler(s, e);
    SameState(s, s');
    if e.Check? && s' != s && s'.handler.Acking? {
      CompletedIsCovered(s, s.rows[s.handler.row].WakeKey().value);
    }
  }

  lemma CompletedIsCovered(s: Sys, k: Key)
    requires ListsOk(s) && k in s.mem.completed
    ensures Covered(s, k)
  {}

  lemma ServerAckKeeps(s: Sys)
    requires Inv(s)
    ensures Inv(ApplyHandler(s, ServerAck))
  {
    hide Queued, Ended, Known, Asked, Drained;
    var s' := ApplyHandler(s, ServerAck);
    if s' != s {
      assert ServerGrows(s, s');
      ServerFactsStay(s, s');
      assert forall k :: Covered(s, k) ==> Covered(s', k);
      assert forall i :: 0 <= i < |s.rows| ==> s'.rows[i].WakeKey() == s.rows[i].WakeKey();
      assert forall k :: Working(s', k) == Working(s, k);
    }
  }

  lemma RowStepKeeps(s: Sys, e: Event)
    requires Inv(s) && (e.Enqueue? || e.Write?)
    ensures Inv(ApplyHandler(s, e))
  {
    hide AlreadyHandled, Covered, Restored, Working, Asked;
    var s' := ApplyHandler(s, e);
    if s' != s {
      var f := FileOf(s.rows, s.handler.row);
      if e.Write? {
        PutCovers(s, f);
        SameState(Put(s, f), s');
        QueuedIsCovered(s', f);
      } else {
        SameState(s, s');
        if AlreadyHandled(s.mem.completed, s.queue, f) && f.WakeKey().Some? {
          HandledMeansRestored(s, f);
        }
      }
    }
  }

  lemma QueuedIsCovered(s: Sys, f: File)
    ensures f.WakeKey().Some? && Queued(s.queue, f.WakeKey().value) ==> Covered(s, f.WakeKey().value)
  {}

  /** Steps that may move the handler, out of a recovery or on a row, and change what is remembered. */
  lemma ListsAndHandlerChange(s: Sys, s': Sys)
    requires Inv(s) && ListsOk(s') && HandlerOk(s') && (s'.handler == s.handler || !s'.handler.Recovering?)
    requires s'.rows == s.rows && s'.answered == s.answered && s'.accepted == s.accepted && s'.queue == s.queue
    requires s'.owed == s.owed && s'.drains == s.drains
    ensures Inv(s')
  {
    SameState(s, s');
    hide Covered, Restored, Working, Known, Asked, Ended, ListsOk, HandlerOk;
  }

  lemma ForgottenListIsOk(s: Sys, r: RoomId, h: Handler)
    requires ListsOk(s)
    ensures ListsOk(s.(mem := s.mem.(completed := ForgetRoom(s.mem.completed, r)), handler := h))
  {
    ForgetRoomRemovesARoom(s.mem.completed, r);
    hide NoDup, ForgetRoom;
  }

  lemma ForgetStepKeeps(s: Sys, e: Event)
    requires Inv(s) && (e.EndRoom? || e.RecoverForget?)
    ensures Inv(ApplyHandler(s, e))
  {
    var s' := ApplyHandler(s, e);
    if s' != s {
      var r := if e.EndRoom? then s.rows[s.handler.row].room else e.room;
      assert ListsOk(s) && HandlerOk(s);
      hide Inv, ListsOk, ForgetRoom, Covered;
      ForgottenListIsOk(s, r, s'.handler);
      assert s' == s.(mem := s.mem.(completed := ForgetRoom(s.mem.completed, r)), handler := s'.handler);
      assert HandlerOk(s');
      hide HandlerOk, ApplyHandler;
      ListsAndHandlerChange(s, s');
    }
  }

  /** A terminal delivery drops jobs of a room that has ended after every wake that is acknowledged. */
  lemma DropFileKeeps(s: Sys, f: File)
    requires Inv(s) && Cursor.InOrder(s)
    ensures Inv(ApplyHandler(s, DropFile(f)))
  {
    var s' := ApplyHandler(s, DropFile(f));
    if s' != s {
      forall k ensures Working(s', k) ==> Working(s, k) {
        RemovedFile(s.queue, f, k);
      }
      forall i | 0 <= i < |s.rows| && s.rows[i].acked && s.rows[i].WakeKey().Some? ensures Covered(s', s.rows[i].WakeKey().value) {
        var k := s.rows[i].WakeKey().value;
        RemovedFile(s.queue, f, k);
        if f.WakeKey() == Some(k) {
          EndedByTheHandlersRow(s, i, k);
        }
      }
      hide Queued, Ended, Known, Asked, Drained;
      assert RowsOk(s');
    }
  }

  lemma EndedByTheHandlersRow(s: Sys, i: nat, k: Key)
    requires Inv(s) && Cursor.InOrder(s) && s.handler.Ending? && s.rows[s.handler.row].room == k.room
    requires i < |s.rows| && s.rows[i].acked && s.rows[i].WakeKey() == Some(k)
    ensures Ended(s.rows, k)
  {
    var j := s.handler.row;
    assert Cursor.NoneAckedAfter(s.rows, j);
    assert !s.rows[j].turnReady && i < j;
  }

  lemma OverMeansEnded(rows: seq<Row>, k: Key)
    requires Over(rows, k.room) && Known(rows, k)
    ensures Ended(rows, k)
  {
    var j :| 0 <= j < |rows| && !rows[j].turnReady && rows[j].room == k.room
             && forall i :: j < i < |rows| && rows[i].turnReady ==> rows[i].room != k.room;
    var i :| 0 <= i < |rows| && rows[i].WakeKey() == Some(k);
    assert i < j;
  }

  lemma RecoverBeginKeeps(s: Sys, ended: set<RoomId>, actionable: seq<Key>)
    requires Inv(s)
    ensures Inv(ApplyHandler(s, RecoverBegin(ended, actionable)))
  {
    var s' := ApplyHandler(s, RecoverBegin(ended, actionable));
    if s' != s {
      SameState(s, s');
      hide Covered, Restored, Working, Asked, Ended, Over;
      forall k | Working(s', k) ensures Asked(s.rows, s.answered, actionable, k) {
        var i :| 0 <= i < |s.rows| && s.rows[i].WakeKey() == Some(k);
      }
      forall k | (Working(s', k) || k in actionable) && k.room in ended ensures Ended(s.rows, k) {
        OverMeansEnded(s.rows, k);
      }
    }
  }

  /** A recovery drops a job either because its room ended, or owing it until its own entry is done. */
  lemma RecoverDropKeeps(s: Sys, f: File)
    requires Inv(s)
    ensures Inv(ApplyHandler(s, RecoverDrop(f)))
  {
    var s' := ApplyHandler(s, RecoverDrop(f));
    if s' != s {
      hide Queued, Ended, Known, Asked, Drained;
      var h := s.handler;
      forall k ensures (Covered(s, k) ==> Covered(s', k)) && (Working(s', k) ==> Working(s, k)) {
        RemovedFile(s.queue, f, k);
        FileIsQueued(s.queue, f);
      }
      forall j | 0 <= j < h.next ensures Restored(s', h.actionable[j]) {
        RemovedFile(s.queue, f, h.actionable[j]);
      }
      assert RecoveryOk(s');
    }
  }

  lemma FileIsQueued(queue: set<File>, f: File)
    ensures f in queue && f.WakeKey().Some? ==> Queued(queue, f.WakeKey().value)
    ensures f.WakeKey().Some? ==> f.WakeKey().value.room == f.Room()
  {}

  lemma RecoverEntryKeeps(s: Sys, e: Event)
    requires Inv(s) && (e.RecoverCheck? || e.RecoverWrite?)
    ensures Inv(ApplyHandler(s, e))
  {
    hide AlreadyHandled, Covered, Restored, Working, Ended, Known;
    var s' := ApplyHandler(s, e);
    if s' != s {
      var k := s.handler.actionable[s.handler.next];
      var f := RecoveryFile(k);
      AskedForListed(s.rows, s.answered, s.handler.actionable, k);
      if e.RecoverWrite? {
        PutCovers(s, f);
        SameState(Put(s, f), s');
        QueuedIsRestored(s', k);
      } else {
        SameState(s, s');
        if AlreadyHandled(s.mem.completed, s.queue, f) {
          HandledMeansRestored(s, f);
        }
      }
    }
  }

  lemma AskedForListed(rows: seq<Row>, answered: set<Key>, actionable: seq<Key>, k: Key)
    requires k in actionable
    ensures Asked(rows, answered, actionable, k)
  {}

  lemma QueuedIsRestored(s: Sys, k: Key)
    ensures Queued(s.queue, k) ==> Restored(s, k)
  {}

  /** When a recovery is done, everything it or an earlier one dropped is restored or no longer asked for. */
  lemma RecoverDoneKeeps(s: Sys)
    requires Inv(s)
    ensures Inv(ApplyHandler(s, RecoverDone))
  {
    var s' := ApplyHandler(s, RecoverDone);
    if s' != s {
      hide Queued, Ended, Known, Drained;
      forall k | Covered(s, k) ensures Covered(s', k) {
        if k in s.owed && k in s.handler.actionable {
          var j :| 0 <= j < |s.handler.actionable| && s.handler.actionable[j] == k;
          assert Restored(s, s.handler.actionable[j]);
        } else if k in s.owed {
          assert Working(s, k) && Asked(s.rows, s.answered, s.handler.actionable, k);
        }
      }
    }
  }

  lemma DrainKeeps(s: Sys, e: Event)
    requires Inv(s) && DrainEvent(e)
    ensures Inv(ApplyDrain(s, e))
  {
    hide Remember, Ended, Known, Asked;
    var s' := ApplyDrain(s, e);
    if s' != s {
      var f := if e.Pick? then e.file else s.drains[e.drain].file;
      FileIsQueued(s.queue, f);
      DrainWorksOnKnown(s, e);
      forall k ensures (Covered(s, k) ==> Covered(s', k)) && (Restored(s, k) ==> Restored(s', k)) {
        RemovedFile(s.queue, f, k);
        if e.HookFails? {
          PutCovers(s, f);
        }
      }
      if e.Complete? {
        hide Covered, Restored, Working, Queued;
        RememberMovesToFront(s.mem.completed, if f.WakeKey().Some? then f.WakeKey().value else Key(0, 0));
      } else {
        hide Covered, Restored, Working, Queued;
        QueueStepKeeps(s, s');
      }
    }
  }

  /** A drain puts back only what it took. */
  lemma DrainWorksOnKnown(s: Sys, e: Event)
    requires DrainEvent(e)
    ensures forall k :: Working(ApplyDrain(s, e), k) ==> Working(s, k)
  {
    hide Remember;
    var s' := ApplyDrain(s, e);
    if s' != s {
      var f := if e.Pick? then e.file else s.drains[e.drain].file;
      forall k | Working(s', k) ensures Working(s, k) {
        if Queued(s'.queue, k) {
          var g :| g in s'.queue && g.WakeKey() == Some(k);
          assert g in s.queue || (e.drain in s.drains && s.drains[e.drain].file == g);
        } else if Drained(s'.drains, k) {
          var d :| d in s'.drains && s'.drains[d].file.WakeKey() == Some(k);
          assert s'.drains[d].file == if d in s.drains then s.drains[d].file else f;
        }
      }
    }
  }

  lemma OnlyListsChange(s: Sys, s': Sys)
    requires Inv(s) && ListsOk(s')
    requires s'.rows == s.rows && s'.answered == s.answered && s'.accepted == s.accepted && s'.queue == s.queue
    requires s'.owed == s.owed && s'.drains == s.drains && s'.handler == s.handler
    ensures Inv(s')
  {
    SameState(s, s');
    hide Covered, Restored, Working, Known, Asked, Ended, ListsOk;
  }

  lemma SavesKeep(s: Sys, e: Event)
    requires Inv(s) && (e.Snapshot? || e.Land?)
    ensures Inv(ApplyDisk(s, e))
  {
    assert ListsOk(s);
    hide Inv, ListsOk;
    ListsAreSaved(s, e);
    if e.Snapshot? {
      OnlyListsChange(s, s.(saving := s.saving + multiset{s.mem}));
    } else if e.saved in s.saving {
      OnlyListsChange(s, s.(disk := e.saved, saving := s.saving - multiset{e.saved}));
    }
  }

  lemma ListsAreSaved(s: Sys, e: Event)
    requires ListsOk(s) && (e.Snapshot? || e.Land?)
    ensures ListsOk(ApplyDisk(s, e))
  {
    hide NoDup;
    var s' := ApplyDisk(s, e);
    assert forall keys :: ListOk(s', keys) == ListOk(s, keys);
    hide ListOk;
    assert forall p :: p in s'.saving ==> p in s.saving || p == s.mem;
  }

  lemma CrashKeeps(s: Sys)
    requires Inv(s)
    ensures Inv(ApplyDisk(s, Crash))
  {
    hide Queued, Ended, Known, Asked;
    var s' := ApplyDisk(s, Crash);
    assert forall k :: Covered(s, k) == Covered(s', k);
    assert forall k :: Working(s', k) ==> Working(s, k);
    hide Covered, Working, Restored, NoDup;
  }

  lemma DiskKeeps(s: Sys, e: Event)
    requires Inv(s) && DiskEvent(e)
    ensures Inv(ApplyDisk(s, e))
  {
    hide Inv, ApplyDisk;
    if e.Crash? {
      CrashKeeps(s);
    } else {
      SavesKeep(s, e);
    }
  }

  lemma ApplyKeeps(s: Sys, e: Event)
    requires Inv(s) && Cursor.Inv(s) && Cursor.InOrder(s)
    ensures Inv(Apply(s, e)) && Cursor.Inv(Apply(s, e)) && Cursor.InOrder(Apply(s, e))
  {
    hide Inv, ApplyServer, ApplyHandler, ApplyDrain, ApplyDisk, Cursor.Inv, Cursor.InOrder;
    Cursor.ApplyKeeps(s, e);
    Cursor.StaysInOrder(s, e);
    if ServerEvent(e) {
      ServerKeeps(s, e);
    } else if DrainEvent(e) {
      DrainKeeps(s, e);
    } else if DiskEvent(e) {
      DiskKeeps(s, e);
    } else {
      HandlerKeeps(s, e);
    }
  }

  lemma HandlerKeeps(s: Sys, e: Event)
    requires Inv(s) && Cursor.Inv(s) && Cursor.InOrder(s) && Cursor.Inv(ApplyHandler(s, e))
    requires !ServerEvent(e) && !DrainEvent(e) && !DiskEvent(e)
    ensures Inv(ApplyHandler(s, e))
  {
    hide Inv, ApplyHandler, Cursor.Inv, Cursor.InOrder;
    match e
    case Connect => ConnectKeeps(s);
    case Enqueue => RowStepKeeps(s, e);
    case Write => RowStepKeeps(s, e);
    case DropFile(f) => DropFileKeeps(s, f);
    case EndRoom => ForgetStepKeeps(s, e);
    case ServerAck => ServerAckKeeps(s);
    case RecoverSave => RecoverSaveKeeps(s);
    case RecoverBegin(ended, actionable) => RecoverBeginKeeps(s, ended, actionable);
    case RecoverForget(_) => ForgetStepKeeps(s, e);
    case RecoverDrop(f) => RecoverDropKeeps(s, f);
    case RecoverCheck => RecoverEntryKeeps(s, e);
    case RecoverWrite => RecoverEntryKeeps(s, e);
    case RecoverDone => RecoverDoneKeeps(s);
    case Receive => MoveKeeps(s, e);
    case Check => MoveKeeps(s, e);
    case SetCursor => MoveKeeps(s, e);
    case FailHandler => MoveKeeps(s, e);
  }

  lemma OthersForgetNothing(s: Sys, e: Event)
    requires !e.EndRoom? && !e.RecoverForget? && !e.Complete? && !e.Crash?
    ensures Apply(s, e).mem.completed == s.mem.completed
  {
    hide AlreadyHandled, Resolve, ValidListing, MayDrop, FileOf, ListPending, Known;
  }

  /** A completed wake is forgotten only with its room, which ended, to make place for a newer one, or in a crash. */
  lemma ForgottenForAReason(s: Sys, e: Event, k: Key)
    requires Inv(s) && k in s.mem.completed && k !in Apply(s, e).mem.completed
    ensures || e.Crash?
            || (e.Complete? && |s.mem.completed| >= 64)
            || (e == RecoverForget(k.room) && s.handler.Recovering? && k.room in s.handler.ended)
            || (e.EndRoom? && s.handler.Ending? && s.handler.row < |s.rows| && !s.rows[s.handler.row].turnReady && s.rows[s.handler.row].room == k.room)
  {
    assert NoDup(s.mem.completed) && HandlerOk(s);
    hide AlreadyHandled, Resolve, ValidListing, MayDrop, FileOf, ListPending, Remember, Covered, Queued, Inv, NoDup, Known, ForgetRoom;
    if !e.EndRoom? && !e.RecoverForget? && !e.Complete? && !e.Crash? {
      OthersForgetNothing(s, e);
      hide Apply;
    } else if e.Complete? && e.drain in s.drains && s.drains[e.drain].file.WakeKey().Some? {
      RememberMovesToFront(s.mem.completed, s.drains[e.drain].file.WakeKey().value);
    } else if e.RecoverForget? {
      ForgetRoomRemovesARoom(s.mem.completed, e.room);
    } else if e.EndRoom? && s.handler.Ending? && s.handler.row < |s.rows| {
      ForgetRoomRemovesARoom(s.mem.completed, s.rows[s.handler.row].room);
    }
  }

  lemma InitialOk(s: Sys)
    requires Initial(s)
    ensures Inv(s) && Cursor.Inv(s) && Cursor.InOrder(s)
  {}

  lemma {:induction false} RunKeeps(s: Sys, es: seq<Event>)
    requires Initial(s)
    ensures Inv(Run(s, es)) && Cursor.Inv(Run(s, es)) && Cursor.InOrder(Run(s, es))
  {
    hide Apply, Inv, Cursor.Inv, Cursor.InOrder;
    if es == [] {
      InitialOk(s);
    } else {
      RunKeeps(s, es[..|es|-1]);
      ApplyKeeps(Run(s, es[..|es|-1]), es[|es|-1]);
    }
  }
}
