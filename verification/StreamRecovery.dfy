/**
 * What a recovery owes: a job it dropped is restored before it ends, and if it does not end the next
 * connection recovers again.  With that, a wake the server counts as delivered is never lost.
 */
module StreamRecovery {
  import opened Prelude
  import opened AgentStream
  import Cursor = StreamCursor
  import opened StreamHandoff

  predicate Due(s: Sys, cursor: Option<nat>)
  {
    Resolve(s.rows, s.now, cursor).ReplayRequired?
  }

  /** While a recovery owes a job, one is under way, or the next connection starts one. */
  predicate OwedIsDue(s: Sys)
  {
    s.owed != {} ==> Due(s, s.mem.cursor)
  }

  /** A recovery starts only when one is due, and no stream is open then. */
  ghost predicate Replaying(s: Sys)
  {
    && (s.handler.Recording? || s.handler.Listing? || s.handler.Recovering? ==> Due(s, s.mem.cursor) && s.conn.None?)
    && (s.owed != {} ==> s.conn.None? && !Cursor.OnRow(s.handler))
  }

  /** A cursor that was once refused stays refused: acknowledged rows only get older. */
  lemma DueStays(s: Sys, s': Sys, cursor: Option<nat>)
    requires Due(s, cursor) && Cursor.Safe(s.rows, s.now, cursor) && Cursor.Grows(s.rows, s.now, s'.rows, s'.now)
    ensures Due(s', cursor)
  {}

  /** The moment at which an owed job could be forgotten: a crash that brings back an older cursor. */
  predicate SafeCrash(s: Sys, e: Event)
  {
    e.Crash? && s.owed != {} ==> Due(s, s.disk.cursor)
  }

  lemma ServerStep(s: Sys, e: Event)
    requires Cursor.Inv(s) && Replaying(s) && OwedIsDue(s) && ServerEvent(e)
    ensures var s' := ApplyServer(s, e); Replaying(s') && OwedIsDue(s')
  {
    hide ListPending, Cursor.ConnOk, Cursor.HandlerOk, Cursor.SettledBelow, Known;
    var s' := ApplyServer(s, e);
    if Due(s, s.mem.cursor) {
      DueStays(s, s', s.mem.cursor);
    }
  }

  predicate RecoveryEvent(e: Event)
  {
    e.RecoverForget? || e.RecoverDrop? || e.RecoverCheck? || e.RecoverWrite?
  }

  /** Connecting and the steps of a recovery. */
  lemma RecoveryStep(s: Sys, e: Event)
    requires Replaying(s) && OwedIsDue(s)
    requires e.Connect? || e.RecoverSave? || e.RecoverBegin? || e.RecoverDone? || RecoveryEvent(e)
    ensures var s' := ApplyHandler(s, e); Replaying(s') && OwedIsDue(s')
  {
    hide AlreadyHandled, ForgetRoom, ValidListing, Resolve;
  }

  /** Nothing is owed while a delivery is being handled. */
  lemma RowStep(s: Sys, e: Event)
    requires Replaying(s) && OwedIsDue(s) && !ServerEvent(e) && !DrainEvent(e) && !DiskEvent(e)
    requires !e.Connect? && !e.RecoverSave? && !e.RecoverBegin? && !e.RecoverDone? && !RecoveryEvent(e)
    ensures var s' := ApplyHandler(s, e); Replaying(s') && OwedIsDue(s')
  {
    hide AlreadyHandled, ForgetRoom, FileOf, Resolve;
    var s' := ApplyHandler(s, e);
    if Cursor.OnRow(s.handler) {
      assert s.owed == {} && s'.owed == {};
    }
  }

  lemma HandlerStep(s: Sys, e: Event)
    requires Replaying(s) && OwedIsDue(s) && !ServerEvent(e) && !DrainEvent(e) && !DiskEvent(e)
    ensures var s' := ApplyHandler(s, e); Replaying(s') && OwedIsDue(s')
  {
    hide Replaying, OwedIsDue, ApplyHandler;
    if e.Connect? || e.RecoverSave? || e.RecoverBegin? || e.RecoverDone? || RecoveryEvent(e) {
      RecoveryStep(s, e);
    } else {
      RowStep(s, e);
    }
  }

  lemma OtherStep(s: Sys, e: Event)
    requires Replaying(s) && OwedIsDue(s) && (DrainEvent(e) || DiskEvent(e))
    ensures Replaying(Apply(s, e)) && (OwedIsDue(Apply(s, e)) <==> SafeCrash(s, e))
  {
    hide Remember, Resolve;
  }

  /** Of all steps only a crash can leave something owed that no recovery is due for. */
  lemma OwedStaysDueStep(s: Sys, e: Event)
    requires Cursor.Inv(s) && Replaying(s) && OwedIsDue(s)
    ensures Replaying(Apply(s, e)) && (OwedIsDue(Apply(s, e)) <==> SafeCrash(s, e))
  {
    hide Replaying, OwedIsDue, ApplyServer, ApplyHandler, ApplyDrain, ApplyDisk, Cursor.Inv;
    if ServerEvent(e) {
      ServerStep(s, e);
    } else if DrainEvent(e) || DiskEvent(e) {
      OtherStep(s, e);
    } else {
      HandlerStep(s, e);
    }
  }

  ghost predicate SafeCrashes(s: Sys, es: seq<Event>)
  {
    es == [] || (SafeCrashes(s, es[..|es|-1]) && SafeCrash(Run(s, es[..|es|-1]), es[|es|-1]))
  }

  ghost predicate DueThroughout(s: Sys, es: seq<Event>)
  {
    OwedIsDue(Run(s, es)) && (es == [] || DueThroughout(s, es[..|es|-1]))
  }

  /** Exactly when every recovery that is interrupted is taken up again. */
  lemma {:induction false} OwedStaysDueIff(s: Sys, es: seq<Event>)
    requires Initial(s)
    ensures DueThroughout(s, es) <==> SafeCrashes(s, es)
    ensures DueThroughout(s, es) ==> Replaying(Run(s, es))
  {
    hide OwedIsDue, Replaying, SafeCrash, Apply;
    if es == [] {
      NothingOwedYet(s);
    } else {
      OwedStaysDueIff(s, es[..|es|-1]);
      RunKeeps(s, es[..|es|-1]);
      if DueThroughout(s, es[..|es|-1]) {
        DueAtTheEnd(s, es[..|es|-1]);
        OwedStaysDueStep(Run(s, es[..|es|-1]), es[|es|-1]);
      }
    }
  }

  lemma NothingOwedYet(s: Sys)
    requires Initial(s)
    ensures OwedIsDue(s) && Replaying(s) && Run(s, []) == s
  {}

  lemma DueAtTheEnd(s: Sys, es: seq<Event>)
    requires DueThroughout(s, es)
    ensures OwedIsDue(Run(s, es))
  {}

  // ---------- saves that land in time ----------

  /**
   * When the listing arrives, no save that was started with another cursor has overwritten the
   * recovery's own, and none is still on its way to the disk.
   */
  predicate SettledSave(s: Sys, e: Event)
  {
    e.RecoverBegin? && s.handler.Listing? ==>
      s.disk.cursor == s.mem.cursor && forall p :: p in s.saving ==> p.cursor == s.mem.cursor
  }

  ghost predicate SettledSaves(s: Sys, es: seq<Event>)
  {
    es == [] || (SettledSaves(s, es[..|es|-1]) && SettledSave(Run(s, es[..|es|-1]), es[|es|-1]))
  }

  /** During and after an unfinished recovery every copy of the state has the cursor that calls for one. */
  ghost predicate OneCursor(s: Sys)
  {
    s.owed != {} || s.handler.Recovering? ==>
      s.disk.cursor == s.mem.cursor && forall p :: p in s.saving ==> p.cursor == s.mem.cursor
  }

  /** Between its start and its end a step of the handler can save the state, and only a recovery comes to owe something. */
  ghost predicate Saves(s: Sys, s': Sys)
  {
    && s'.mem.cursor == s.mem.cursor
    && (s'.disk == s.disk || s'.disk in s.saving)
    && s'.saving <= s.saving + multiset{s.mem}
    && (s'.owed != {} || s'.handler.Recovering? ==> s.owed != {} || s.handler.Recovering?)
  }

  lemma ConnectSaves(s: Sys, e: Event)
    requires e.Connect? || e.RecoverSave?
    ensures Saves(s, ApplyHandler(s, e))
  {
    hide Resolve;
  }

  lemma RecoverySaves(s: Sys, e: Event)
    requires RecoveryEvent(e)
    ensures Saves(s, ApplyHandler(s, e))
  {
    hide ForgetRoom, AlreadyHandled;
  }

  lemma RowSaves(s: Sys, e: Event)
    requires !e.Connect? && !e.RecoverSave? && !RecoveryEvent(e) && !e.RecoverBegin? && !e.SetCursor? && !e.RecoverDone?
    ensures Saves(s, ApplyHandler(s, e))
  {
    hide ForgetRoom, AlreadyHandled, FileOf;
  }

  /** While the cursor stands still, saves that start or land have it too. */
  lemma OneCursorStays(s: Sys, s': Sys)
    requires OneCursor(s) && Saves(s, s')
    ensures OneCursor(s')
  {}

  lemma OneCursorHandlerStep(s: Sys, e: Event)
    requires Replaying(s) && OneCursor(s) && SettledSave(s, e) && !ServerEvent(e) && !DrainEvent(e) && !DiskEvent(e)
    ensures OneCursor(ApplyHandler(s, e))
  {
    if e.RecoverBegin? {
      hide ValidListing;
    } else if e.SetCursor? || e.RecoverDone? {
      hide Due;
    } else {
      if e.Connect? || e.RecoverSave? {
        ConnectSaves(s, e);
      } else if RecoveryEvent(e) {
        RecoverySaves(s, e);
      } else {
        RowSaves(s, e);
      }
      hide ApplyHandler, OneCursor;
      OneCursorStays(s, ApplyHandler(s, e));
    }
  }

  lemma OneCursorOtherStep(s: Sys, e: Event)
    requires OneCursor(s) && (ServerEvent(e) || DrainEvent(e) || DiskEvent(e))
    ensures OneCursor(Apply(s, e))
  {
    hide ListPending, Remember, Known;
  }

  lemma OneCursorStep(s: Sys, e: Event)
    requires Replaying(s) && OneCursor(s) && SettledSave(s, e)
    ensures OneCursor(Apply(s, e))
  {
    hide Replaying, OneCursor, SettledSave, ApplyServer, ApplyHandler, ApplyDrain, ApplyDisk;
    if ServerEvent(e) || DrainEvent(e) || DiskEvent(e) {
      OneCursorOtherStep(s, e);
    } else {
      OneCursorHandlerStep(s, e);
    }
  }

  lemma OneCursorMakesCrashesSafe(s: Sys, e: Event)
    requires OneCursor(s) && OwedIsDue(s)
    ensures SafeCrash(s, e)
  {}

  lemma {:induction false} SettledSavesMakeCrashesSafe(s: Sys, es: seq<Event>)
    requires Initial(s) && SettledSaves(s, es)
    ensures SafeCrashes(s, es) && OneCursor(Run(s, es))
  {
    hide OwedIsDue, Replaying, OneCursor, SafeCrash, SettledSave, Apply;
    if es == [] {
      OneCursorAtFirst(s);
    } else {
      var before := es[..|es|-1];
      SettledSavesMakeCrashesSafe(s, before);
      OwedStaysDueIff(s, before);
      DueAtTheEnd(s, before);
      OneCursorMakesCrashesSafe(Run(s, before), es[|es|-1]);
      OneCursorStep(Run(s, before), es[|es|-1]);
    }
  }

  lemma OneCursorAtFirst(s: Sys)
    requires Initial(s)
    ensures OneCursor(Run(s, []))
  {}

  // ---------- the theorem ----------

  /** A wake is safe: taken, queued, no longer asked for (its room ended after it, or its turn is spoken), or to be restored by the recovery that both cursors call for. */
  predicate Safe(s: Sys, k: Key)
  {
    || k in s.accepted || Queued(s.queue, k) || Ended(s.rows, k) || k in s.answered
    || (k in s.owed && Due(s, s.mem.cursor) && Due(s, s.disk.cursor))
  }

  /**
   * In every run, with crashes at any point and overlapping drains, as long as saves land before a
   * later recovery begins: each wake the server holds as acknowledged is safe.  The completed lists
   * hold only accepted wakes, once each, and at most 64 of them.
   */
  lemma HandoffIsDurable(s: Sys, es: seq<Event>, i: nat)
    requires Initial(s) && SettledSaves(s, es) && i < |Run(s, es).rows|
    ensures var end := Run(s, es);
            && (end.rows[i].acked && end.rows[i].WakeKey().Some? ==> Safe(end, end.rows[i].WakeKey().value))
            && NoDup(end.mem.completed) && |end.mem.completed| <= KEEP
            && NoDup(end.disk.completed) && |end.disk.completed| <= KEEP
            && (forall k :: k in end.mem.completed || k in end.disk.completed ==> k in end.accepted)
  {
    hide Run, Due, Queued, Ended, SettledSaves;
    RunKeeps(s, es);
    SettledSavesMakeCrashesSafe(s, es);
    OwedStaysDueIff(s, es);
    DueAtTheEnd(s, es);
  }

  /** Whatever the disk does, the only wakes in doubt are those an interrupted recovery owes. */
  lemma OnlyOwedWakesAreInDoubt(s: Sys, es: seq<Event>, i: nat)
    requires Initial(s) && i < |Run(s, es).rows|
    ensures var end := Run(s, es);
            end.rows[i].acked && end.rows[i].WakeKey().Some? ==> Covered(end, end.rows[i].WakeKey().value)
  {
    RunKeeps(s, es);
  }

  /** Once no recovery is under way or due, every acknowledged wake is taken, queued, or no longer asked for. */
  lemma AtRestNothingIsOwed(s: Sys, es: seq<Event>, i: nat)
    requires Initial(s) && SettledSaves(s, es) && i < |Run(s, es).rows|
    requires !Due(Run(s, es), Run(s, es).mem.cursor)
    ensures var end := Run(s, es);
            end.rows[i].acked && end.rows[i].WakeKey().Some? ==>
              var k := end.rows[i].WakeKey().value;
              k in end.accepted || Queued(end.queue, k) || Ended(end.rows, k) || k in end.answered
  {
    HandoffIsDurable(s, es, i);
  }
}
