/** The wake queue: no wake twice, and none that is known to be completed; exactly when that lasts. */
module StreamQueue {
  import opened Prelude
  import opened AgentStream
  import opened StreamHandoff

  ghost predicate Distinct(queue: set<File>)
  {
    forall f, g :: f in queue && g in queue && f.WakeKey().Some? && f.WakeKey() == g.WakeKey() ==> f == g
  }

  ghost predicate Disjoint(queue: set<File>, completed: seq<Key>)
  {
    forall f :: f in queue && f.WakeKey().Some? ==> f.WakeKey().value !in completed
  }

  ghost predicate QueueClean(s: Sys)
  {
    Distinct(s.queue) && Disjoint(s.queue, s.mem.completed)
  }

  // ---------- exactly when a step keeps the queue clean ----------

  /** The file a step is about to write, if it writes one. */
  function Writes(s: Sys, e: Event): Option<File>
  {
    match e
    case Write => if s.handler.Writing? && s.handler.row < |s.rows| then Some(FileOf(s.rows, s.handler.row)) else None
    case RecoverWrite =>
      if s.handler.Recovering? && s.handler.writing && s.handler.next < |s.handler.actionable|
      then Some(RecoveryFile(s.handler.actionable[s.handler.next])) else None
    case HookFails(d) => if d in s.drains && !s.drains[d].Removed? then Some(s.drains[d].file) else None
    case _ => None
  }

  /** The wake a step is about to mark as completed, if any. */
  function Completes(s: Sys, e: Event): Option<Key>
  {
    if e.Complete? && e.drain in s.drains && s.drains[e.drain].Removed? then s.drains[e.drain].file.WakeKey() else None
  }

  predicate Fits(queue: set<File>, completed: seq<Key>, f: File)
  {
    f in queue || (f.WakeKey().Some? ==> !Queued(queue, f.WakeKey().value) && f.WakeKey().value !in completed)
  }

  /** A file is written only if it is there or its wake is nowhere; a wake completes only when it has left the queue; a crash brings back a list that is disjoint from it. */
  ghost predicate CleanStep(s: Sys, e: Event)
  {
    && (Writes(s, e).Some? ==> Fits(s.queue, s.mem.completed, Writes(s, e).value))
    && (Completes(s, e).Some? ==> !Queued(s.queue, Completes(s, e).value))
    && (e.Crash? ==> Disjoint(s.queue, s.disk.completed))
  }

  lemma PutIsCleanIff(queue: set<File>, completed: seq<Key>, f: File)
    requires Distinct(queue) && Disjoint(queue, completed)
    ensures Distinct(queue + {f}) && Disjoint(queue + {f}, completed) <==> Fits(queue, completed, f)
  {
    if f.WakeKey().Some? && f !in queue {
      var k := f.WakeKey().value;
      assert f in queue + {f};
      if Queued(queue, k) {
        var g :| g in queue && g.WakeKey() == Some(k);
        assert g in queue + {f} && g != f;
      } else {
        assert forall g :: g in queue ==> g.WakeKey() != Some(k);
      }
    } else if f in queue {
      assert queue + {f} == queue;
    }
  }

  lemma FewerFilesStayClean(queue: set<File>, queue': set<File>, completed: seq<Key>, completed': seq<Key>)
    requires Distinct(queue) && Disjoint(queue, completed)
    requires queue' <= queue && forall k :: k in completed' ==> k in completed
    ensures Distinct(queue') && Disjoint(queue', completed')
  {}

  lemma CompletingIsCleanIff(queue: set<File>, completed: seq<Key>, k: Key)
    requires Distinct(queue) && Disjoint(queue, completed)
    ensures Disjoint(queue, Remember(completed, k)) <==> !Queued(queue, k)
  {
    WithoutRemovesOne(completed, k);
    assert Remember(completed, k)[0] == k;
    assert forall x :: x in Remember(completed, k) ==> x == k || x in completed;
  }

  lemma HandlerStepIsCleanIff(s: Sys, e: Event)
    requires QueueClean(s) && !ServerEvent(e) && !DrainEvent(e) && !DiskEvent(e)
    ensures QueueClean(ApplyHandler(s, e)) <==> CleanStep(s, e)
  {
    hide Distinct, Disjoint, Fits, AlreadyHandled, Resolve, ValidListing, Queued;
    var s' := ApplyHandler(s, e);
    if Writes(s, e).Some? {
      PutIsCleanIff(s.queue, s.mem.completed, Writes(s, e).value);
    } else {
      if e.EndRoom? && s.handler.Ending? && s.handler.row < |s.rows| {
        ForgetRoomRemovesARoom(s.mem.completed, s.rows[s.handler.row].room);
      } else if e.RecoverForget? {
        ForgetRoomRemovesARoom(s.mem.completed, e.room);
      }
      FewerFilesStayClean(s.queue, s'.queue, s.mem.completed, s'.mem.completed);
    }
  }

  lemma DrainStepIsCleanIff(s: Sys, e: Event)
    requires QueueClean(s) && DrainEvent(e)
    ensures QueueClean(ApplyDrain(s, e)) <==> CleanStep(s, e)
  {
    hide Distinct, Disjoint, Fits, Queued, Remember;
    var s' := ApplyDrain(s, e);
    if Writes(s, e).Some? {
      PutIsCleanIff(s.queue, s.mem.completed, Writes(s, e).value);
    } else if Completes(s, e).Some? {
      CompletingIsCleanIff(s.queue, s.mem.completed, Completes(s, e).value);
    } else {
      FewerFilesStayClean(s.queue, s'.queue, s.mem.completed, s'.mem.completed);
    }
  }

  lemma ServerStepIsClean(s: Sys, e: Event)
    requires QueueClean(s) && ServerEvent(e)
    ensures QueueClean(ApplyServer(s, e)) && CleanStep(s, e)
  {
    hide ListPending, Known, Queued, Fits, Distinct, Disjoint;
  }

  lemma DiskStepIsCleanIff(s: Sys, e: Event)
    requires QueueClean(s) && DiskEvent(e)
    ensures QueueClean(ApplyDisk(s, e)) <==> CleanStep(s, e)
  {
    hide Queued, Fits, Distinct;
  }

  /** A clean queue stays clean over a step, whatever drains overlap, if and only if the step's own check holds. */
  lemma StepKeepsTheQueueCleanIff(s: Sys, e: Event)
    requires QueueClean(s)
    ensures QueueClean(Apply(s, e)) <==> CleanStep(s, e)
  {
    hide ApplyServer, ApplyHandler, ApplyDrain, ApplyDisk, QueueClean, CleanStep;
    if DrainEvent(e) {
      DrainStepIsCleanIff(s, e);
    } else if ServerEvent(e) {
      ServerStepIsClean(s, e);
    } else if DiskEvent(e) {
      DiskStepIsCleanIff(s, e);
    } else {
      HandlerStepIsCleanIff(s, e);
    }
  }

  ghost predicate CleanThroughout(s: Sys, es: seq<Event>)
  {
    QueueClean(Run(s, es)) && (es == [] || CleanThroughout(s, es[..|es|-1]))
  }

  ghost predicate CleanSteps(s: Sys, es: seq<Event>)
  {
    es == [] || (CleanSteps(s, es[..|es|-1]) && CleanStep(Run(s, es[..|es|-1]), es[|es|-1]))
  }

  lemma CleanAtTheEnd(s: Sys, es: seq<Event>)
    requires CleanThroughout(s, es)
    ensures QueueClean(Run(s, es))
  {}

  /** The queue is clean throughout a run exactly when every step passes that check. */
  lemma {:induction false} QueueIsCleanIff(s: Sys, es: seq<Event>)
    requires Initial(s)
    ensures CleanThroughout(s, es) <==> CleanSteps(s, es)
  {
    hide QueueClean, CleanStep, Apply;
    if es == [] {
      assert QueueClean(Run(s, es)) by { EmptyQueueIsClean(s); }
    } else {
      QueueIsCleanIff(s, es[..|es|-1]);
      if CleanThroughout(s, es[..|es|-1]) {
        CleanAtTheEnd(s, es[..|es|-1]);
        StepKeepsTheQueueCleanIff(Run(s, es[..|es|-1]), es[|es|-1]);
      }
    }
  }

  lemma EmptyQueueIsClean(s: Sys)
    requires Initial(s)
    ensures QueueClean(Run(s, []))
  {}

  // ---------- drains that do not overlap ----------

  /** The wake the handler is about to check. */
  function Considers(s: Sys, e: Event): Option<Key>
  {
    if e.Enqueue? && s.handler.Enqueuing? && s.handler.row < |s.rows| then s.rows[s.handler.row].WakeKey()
    else if e.RecoverCheck? && s.handler.Recovering? && s.handler.next < |s.handler.actionable| then Some(s.handler.actionable[s.handler.next])
    else None
  }

  /**
   * One thing at a time: the handler waits for the drain it started, a drain takes its next job only
   * when it is done with the last, and no save is under way when either goes on.  A save may fail, as
   * long as no wake is considered that memory has evicted and the disk still lists.
   */
  ghost predicate Serial(s: Sys, e: Event)
  {
    || ServerEvent(e) || DiskEvent(e) || e.RecoverSave?
    || (&& s.saving == multiset{}
        && (if e.Pick? then s.drains == map[] && (s.handler == Idle || s.handler.Recovering?) && (s.handler.Recovering? ==> !s.handler.writing)
            else DrainEvent(e) || s.drains == map[])
        && (Considers(s, e).Some? && Considers(s, e).value in s.disk.completed ==> Considers(s, e).value in s.mem.completed))
  }

  ghost predicate SerialRun(s: Sys, es: seq<Event>)
  {
    es == [] || (SerialRun(s, es[..|es|-1]) && Serial(Run(s, es[..|es|-1]), es[|es|-1]))
  }

  ghost predicate Clean(s: Sys)
  {
    && Distinct(s.queue) && Disjoint(s.queue, s.mem.completed) && Disjoint(s.queue, s.disk.completed)
    && (forall p :: p in s.saving ==> p == s.mem)
    && (forall d, d' :: d in s.drains && d' in s.drains ==> d == d')
    && (forall d :: d in s.drains ==> DrainClean(s, s.drains[d]))
    && (s.drains != map[] ==> s.handler == Idle || (s.handler.Recovering? && !s.handler.writing))
    && WritingClean(s)
  }

  ghost predicate DrainClean(s: Sys, d: Drain)
  {
    if d.Removed? then d.file.WakeKey().Some? ==> !Queued(s.queue, d.file.WakeKey().value)
    else d.file in s.queue
  }

  ghost predicate Unhandled(s: Sys, k: Option<Key>)
  {
    k.Some? ==> !Queued(s.queue, k.value) && k.value !in s.mem.completed && k.value !in s.disk.completed
  }

  ghost predicate WritingClean(s: Sys)
  {
    && (s.handler.Writing? ==> s.handler.row < |s.rows| && Unhandled(s, s.rows[s.handler.row].WakeKey()))
    && (s.handler.Recovering? && s.handler.writing && s.handler.next < |s.handler.actionable|
        ==> Unhandled(s, Some(s.handler.actionable[s.handler.next])))
  }

  lemma SerialStepIsClean(s: Sys, e: Event)
    requires Clean(s) && Serial(s, e)
    ensures CleanStep(s, e)
  {
    hide Queued, Disjoint, Distinct;
    if e.HookFails? && Writes(s, e).Some? {
      assert DrainClean(s, s.drains[e.drain]);
    }
    if Completes(s, e).Some? {
      assert DrainClean(s, s.drains[e.drain]);
    }
  }

  lemma PutStaysClean(queue: set<File>, f: File, completed: seq<Key>)
    requires Distinct(queue) && Disjoint(queue, completed)
    requires f.WakeKey().Some? ==> !Queued(queue, f.WakeKey().value) && f.WakeKey().value !in completed
    ensures Distinct(queue + {f}) && Disjoint(queue + {f}, completed)
  {
    PutIsCleanIff(queue, completed, f);
  }

  /** The queue after a handler's step, against the lists in memory and on disk. */
  lemma HandlerKeepsListsClean(s: Sys, e: Event)
    requires Clean(s) && !ServerEvent(e) && !DrainEvent(e) && !DiskEvent(e) && !e.RecoverSave?
    ensures var s' := ApplyHandler(s, e);
            Distinct(s'.queue) && Disjoint(s'.queue, s'.mem.completed) && Disjoint(s'.queue, s'.disk.completed)
  {
    hide Resolve, Queued, ValidListing, AlreadyHandled, Distinct, Disjoint;
    var s' := ApplyHandler(s, e);
    if Writes(s, e).Some? {
      PutStaysClean(s.queue, Writes(s, e).value, s.mem.completed);
      PutStaysClean(s.queue, Writes(s, e).value, s.disk.completed);
    } else {
      if (e.EndRoom? || e.RecoverForget?) && s' != s {
        ForgetRoomRemovesARoom(s.mem.completed, if e.EndRoom? then s.rows[s.handler.row].room else e.room);
      }
      FewerFilesStayClean(s.queue, s'.queue, s.mem.completed, s'.mem.completed);
      FewerFilesStayClean(s.queue, s'.queue, s.disk.completed, s'.disk.completed);
    }
  }

  /** A file is only about to be written when its wake is neither queued nor completed. */
  lemma HandlerKeepsWritingClean(s: Sys, e: Event)
    requires Clean(s) && Serial(s, e) && !ServerEvent(e) && !DrainEvent(e) && !DiskEvent(e) && !e.RecoverSave?
    ensures WritingClean(ApplyHandler(s, e))
  {
    hide Resolve, ForgetRoom, Queued, ValidListing, Distinct, Disjoint, DrainClean;
    var s' := ApplyHandler(s, e);
    if (e.DropFile? || e.RecoverDrop?) && s' != s {
      forall k ensures Queued(s'.queue, k) ==> Queued(s.queue, k) {
        RemovedFile(s.queue, if e.DropFile? then e.dead else e.stale, k);
      }
    }
    if e.RecoverForget? && s' != s {
      ForgetRoomRemovesARoom(s.mem.completed, e.room);
    }
  }

  lemma HandlerLeavesTheRest(s: Sys, e: Event)
    requires s.saving == multiset{} && !e.RecoverSave?
    ensures var s' := ApplyHandler(s, e); s'.drains == s.drains && forall p :: p in s'.saving ==> p == s'.mem
  {
    hide Resolve, ForgetRoom, ValidListing, AlreadyHandled, MayDrop, FileOf;
  }

  lemma HandlerStaysClean(s: Sys, e: Event)
    requires Clean(s) && Serial(s, e) && s.drains == map[]
    requires !ServerEvent(e) && !DrainEvent(e) && !DiskEvent(e) && !e.RecoverSave?
    ensures Clean(ApplyHandler(s, e))
  {
    HandlerKeepsListsClean(s, e);
    HandlerKeepsWritingClean(s, e);
    HandlerLeavesTheRest(s, e);
    hide ApplyHandler, Distinct, Disjoint, DrainClean, WritingClean, Considers;
  }

  lemma DrainStaysClean(s: Sys, e: Event)
    requires Clean(s) && Serial(s, e) && DrainEvent(e) && NoDup(s.mem.completed)
    ensures Clean(ApplyDrain(s, e))
  {
    hide Remember;
    var s' := ApplyDrain(s, e);
    if e.Complete? && s' != s {
      var k := s.drains[e.drain].file.WakeKey();
      if k.Some? {
        RememberMovesToFront(s.mem.completed, k.value);
        assert !Queued(s.queue, k.value);
      }
    } else if e.HookFails? && s' != s {
      assert DrainClean(s, s.drains[e.drain]);
      assert s'.queue == s.queue;
    } else if e.Remove? && s' != s {
      var f := s.drains[e.drain].file;
      assert DrainClean(s, s.drains[e.drain]);
      assert DrainClean(s', Removed(f));
    }
  }

  lemma ServerStaysClean(s: Sys, e: Event)
    requires Clean(s) && ServerEvent(e)
    ensures Clean(ApplyServer(s, e))
  {
    hide ListPending, Queued, Known, Distinct, Disjoint;
  }

  lemma DiskStaysClean(s: Sys, e: Event)
    requires Clean(s) && DiskEvent(e)
    ensures Clean(ApplyDisk(s, e))
  {
    hide Queued, Distinct, Disjoint, DrainClean, Unhandled;
    var s' := ApplyDisk(s, e);
    if !e.Crash? {
      DrainsSeeTheQueue(s, s');
      SavedOrNot(s, e);
    }
  }

  lemma DrainsSeeTheQueue(s: Sys, s': Sys)
    ensures s'.queue == s.queue ==> forall d: Drain :: DrainClean(s, d) == DrainClean(s', d)
  {
    hide Queued;
  }

  lemma SavedOrNot(s: Sys, e: Event)
    requires DiskEvent(e) && !e.Crash? && forall p :: p in s.saving ==> p == s.mem
    ensures forall k :: Unhandled(s, k) ==> Unhandled(ApplyDisk(s, e), k)
  {
    hide Queued;
  }

  lemma SaveStaysClean(s: Sys)
    requires Clean(s)
    ensures Clean(ApplyHandler(s, RecoverSave))
  {
    hide Queued;
    assert s.handler.Recording? ==> s.drains == map[];
  }

  lemma {:induction false} SerialRunStaysClean(s: Sys, es: seq<Event>)
    requires Initial(s) && SerialRun(s, es)
    ensures Clean(Run(s, es)) && CleanSteps(s, es)
  {
    hide ApplyServer, ApplyHandler, ApplyDrain, ApplyDisk, Clean, CleanStep, Queued;
    if es == [] {
      NothingToClean(s);
    } else {
      var t, e := Run(s, es[..|es|-1]), es[|es|-1];
      SerialRunStaysClean(s, es[..|es|-1]);
      SerialStepIsClean(t, e);
      if DrainEvent(e) {
        RunKeeps(s, es[..|es|-1]);
        assert ListOk(t, t.mem.completed);
        DrainStaysClean(t, e);
      } else if ServerEvent(e) {
        ServerStaysClean(t, e);
      } else if DiskEvent(e) {
        DiskStaysClean(t, e);
      } else if e.RecoverSave? {
        SaveStaysClean(t);
      } else {
        HandlerStaysClean(t, e);
      }
    }
  }

  lemma NothingToClean(s: Sys)
    requires Initial(s)
    ensures Clean(Run(s, []))
  {}

  /** Without overlap, no wake is queued twice, and none is queued once it is known to be completed, in memory or on disk. */
  lemma SerialQueueIsClean(s: Sys, es: seq<Event>, f: File, g: File)
    requires Initial(s) && SerialRun(s, es)
    requires f in Run(s, es).queue && g in Run(s, es).queue && f.WakeKey().Some?
    ensures var end := Run(s, es);
            && (f != g ==> f.WakeKey() != g.WakeKey())
            && f.WakeKey().value !in end.mem.completed && f.WakeKey().value !in end.disk.completed
  {
    SerialRunStaysClean(s, es);
  }
}
