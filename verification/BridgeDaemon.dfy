/** The bridge's own loops over its wake queue and its completed list, each proved against its specification. */
module BridgeDaemon {
  import opened Prelude
  import opened AgentStream
  import Handoff = StreamHandoff

  // ---------- what a drain and a recovery leave behind ----------

  /** The completed list after the hook took these wakes, oldest first. */
  function RememberAll(completed: seq<Key>, taken: seq<Key>): seq<Key>
  {
    if taken == [] then completed else Remember(RememberAll(completed, taken[..|taken|-1]), taken[|taken|-1])
  }

  /** The keys of the jobs the hook accepted, in the order they were tried. */
  function Taken(tried: seq<File>, accepts: set<File>): seq<Key>
  {
    if tried == [] then []
    else
      var f := tried[|tried|-1];
      Taken(tried[..|tried|-1], accepts) + (if f in accepts && f.WakeKey().Some? then [f.WakeKey().value] else [])
  }

  lemma {:induction false} RememberAllStaysDuplicateFree(completed: seq<Key>, taken: seq<Key>)
    requires Handoff.NoDup(completed) && |completed| <= KEEP
    ensures var out := RememberAll(completed, taken); Handoff.NoDup(out) && |out| <= KEEP
  {
    if taken != [] {
      RememberAllStaysDuplicateFree(completed, taken[..|taken|-1]);
      Handoff.RememberMovesToFront(RememberAll(completed, taken[..|taken|-1]), taken[|taken|-1]);
    }
  }

  /** The key stands among the first n of the list. */
  ghost predicate Among(keys: seq<Key>, k: Key, n: nat)
  {
    exists p :: 0 <= p < |keys| && p < n && keys[p] == k
  }

  /** The k-th last wake taken stands among the first k of the list, so the last 64 are all still known. */
  lemma {:induction false} RecentWakesAreKnown(completed: seq<Key>, taken: seq<Key>, i: nat)
    requires Handoff.NoDup(completed) && |completed| <= 64
    requires i < |taken| && |taken| - i <= 64
    ensures Among(RememberAll(completed, taken), taken[i], |taken| - i)
  {
    var before := RememberAll(completed, taken[..|taken|-1]);
    var k := taken[|taken|-1];
    RememberAllStaysDuplicateFree(completed, taken[..|taken|-1]);
    if i == |taken| - 1 {
      Handoff.RememberMovesToFront(before, k);
      assert Remember(before, k)[0] == taken[i];
    } else {
      RecentWakesAreKnown(completed, taken[..|taken|-1], i);
      ShiftsByAtMostOne(before, k, taken[i], |taken| - 1 - i);
    }
  }

  lemma {:induction false} WithoutMovesForward(keys: seq<Key>, k: Key, x: Key, n: nat)
    requires Among(keys, x, n) && x != k
    ensures Among(Without(keys, k), x, n)
  {
    var p :| 0 <= p < |keys| && p < n && keys[p] == x;
    var out, rest := Without(keys, k), Without(keys[1..], k);
    if p == 0 {
      assert out[0] == x;
    } else {
      assert keys[1..][p - 1] == x;
      WithoutMovesForward(keys[1..], k, x, n - 1);
      var q :| 0 <= q < |rest| && q < n - 1 && rest[q] == x;
      assert out[if keys[0] == k then q else q + 1] == x;
    }
  }

  lemma ShiftsByAtMostOne(keys: seq<Key>, k: Key, x: Key, n: nat)
    requires Among(keys, x, n) && n < KEEP
    ensures Among(Remember(keys, k), x, n + 1)
  {
    var out := Remember(keys, k);
    if x == k {
      assert out[0] == x;
    } else {
      WithoutMovesForward(keys, k, x, n);
      var w := Without(keys, k);
      var q :| 0 <= q < |w| && q < n && w[q] == x;
      assert ([k] + w)[q + 1] == x;
      assert out[q + 1] == x;
    }
  }

  lemma NothingTaken(completed: seq<Key>, accepts: set<File>)
    ensures RememberAll(completed, Taken([], accepts)) == completed
  {}

  lemma TakenOneMore(tried: seq<File>, f: File, accepts: set<File>, completed: seq<Key>)
    ensures RememberAll(completed, Taken(tried + [f], accepts))
         == var before := RememberAll(completed, Taken(tried, accepts));
            if f in accepts && f.WakeKey().Some? then Remember(before, f.WakeKey().value) else before
  {
    assert (tried + [f])[..|tried|] == tried;
    var before := Taken(tried, accepts);
    if f in accepts && f.WakeKey().Some? {
      assert Taken(tried + [f], accepts) == before + [f.WakeKey().value];
      assert (before + [f.WakeKey().value])[..|before|] == before;
    } else {
      assert Taken(tried + [f], accepts) == before;
    }
  }

  /** The queue while a drain still has some files to try. */
  function PartlyDrained(queue: map<File, nat>, untried: set<File>, accepts: set<File>): map<File, nat>
  {
    map f | f in queue && (f in untried || f !in accepts) :: if f in untried then queue[f] else queue[f] + 1
  }

  /** The queue once a job was handed to it. */
  function Enqueued(completed: seq<Key>, queue: map<File, nat>, job: File): map<File, nat>
  {
    if AlreadyHandled(completed, queue.Keys, job) then queue else queue[job := 0]
  }

  /** Whatever was found, the wake is then known to be done or lies in the queue, and no other job is touched. */
  lemma EnqueuedHoldsTheWake(completed: seq<Key>, queue: map<File, nat>, job: File)
    ensures var queue' := Enqueued(completed, queue, job);
            && (job.WakeKey().Some? ==> job.WakeKey().value in completed || Queued(queue'.Keys, job.WakeKey().value))
            && (job.WakeKey().None? ==> job in queue')
            && (forall f :: f in queue ==> f in queue' && queue'[f] == queue[f])
  {
    var queue' := Enqueued(completed, queue, job);
    assert job in queue' ==> job in queue'.Keys;
  }

  /** What recovery leaves for one actionable room: the wake is known to be done, or is the room's only job. */
  ghost predicate Restored(queue: set<File>, completed: seq<Key>, k: Key)
  {
    if k in completed then forall f :: f in queue ==> f.Room() != k.room
    else RecoveryFile(k) in queue && forall f :: f in queue && f.Room() == k.room ==> f == RecoveryFile(k)
  }

  /** The daemon: its completed list and cursor, and the files of its queue with their attempt counts. */
  class Daemon {
    var completed: seq<Key>
    var cursor: Option<nat>
    var queue: map<File, nat>

    constructor (completed: seq<Key>, cursor: Option<nat>, queue: map<File, nat>)
      ensures this.completed == completed && this.cursor == cursor && this.queue == queue
    {
      this.completed, this.cursor, this.queue := completed, cursor, queue;
    }

    method RememberCompletedWakeKey(k: Key)
      modifies this`completed
      ensures completed == Remember(old(completed), k)
    {
      var others: seq<Key> := [];
      for i := 0 to |completed|
        invariant completed == old(completed)
        invariant others + Without(completed[i..], k) == Without(completed, k)
      {
        if completed[i] != k {
          others := others + [completed[i]];
        }
      }
      completed := [k] + others;
      if |completed| > KEEP {
        completed := completed[..KEEP];
      }
    }

    method ForgetCompletedWakeKeysForRoom(r: RoomId)
      modifies this`completed
      ensures completed == ForgetRoom(old(completed), r)
    {
      var kept: seq<Key> := [];
      for i := 0 to |completed|
        invariant completed == old(completed)
        invariant kept + ForgetRoom(completed[i..], r) == ForgetRoom(completed, r)
      {
        if completed[i].room != r {
          kept := kept + [completed[i]];
        }
      }
      completed := kept;
    }

    method FindEquivalentPendingWakeJob(job: File) returns (found: Option<File>)
      ensures found.Some? ==> found.value in queue && found.value.WakeKey() == job.WakeKey() && job.WakeKey().Some?
      ensures found.None? && job.WakeKey().Some? ==> !Queued(queue.Keys, job.WakeKey().value)
    {
      found := None;
      if job.WakeKey().Some? {
        var todo := queue.Keys;
        while todo != {}
          invariant todo <= queue.Keys
          invariant forall f :: f in queue && f !in todo ==> f.WakeKey() != job.WakeKey()
        {
          var f :| f in todo;
          if f.WakeKey() == job.WakeKey() {
            return Some(f);
          }
          todo := todo - {f};
        }
      }
    }

    method EnqueueWakeJob(job: File) returns (file: Option<File>)
      modifies this`queue
      ensures queue == Enqueued(completed, old(queue), job)
      ensures file.None? <==> job.WakeKey().Some? && job.WakeKey().value in completed
      ensures file.Some? ==> file.value in queue && (job.WakeKey().Some? ==> file.value.WakeKey() == job.WakeKey())
    {
      if job.WakeKey().Some? && job.WakeKey().value in completed {
        return None;
      }
      var equivalent := FindEquivalentPendingWakeJob(job);
      if equivalent.Some? {
        return equivalent;
      }
      if job in queue {
        return Some(job);
      }
      queue := queue[job := 0];
      return Some(job);
    }

    method DropWakeJobsForRoom(r: RoomId)
      modifies this`queue
      ensures queue == map f | f in old(queue) && f.Room() != r :: old(queue)[f]
    {
      var todo := queue.Keys;
      while todo != {}
        invariant todo <= queue.Keys <= old(queue).Keys
        invariant forall f :: f in old(queue) && f !in queue ==> f.Room() == r
        invariant forall f :: f in queue ==> queue[f] == old(queue)[f] && (f in todo || f.Room() != r)
      {
        var f :| f in todo;
        if f.Room() == r {
          queue := queue - {f};
        }
        todo := todo - {f};
      }
    }

    method TryWakeJob(f: File, accepted: bool)
      requires f in queue
      modifies this`queue, this`completed
      ensures queue == if accepted then old(queue) - {f} else old(queue)[f := old(queue)[f] + 1]
      ensures completed == if accepted && f.WakeKey().Some? then Remember(old(completed), f.WakeKey().value) else old(completed)
    {
      if accepted {
        queue := queue - {f};
        if f.WakeKey().Some? {
          RememberCompletedWakeKey(f.WakeKey().value);
        }
      } else {
        queue := queue[f := queue[f] + 1];
      }
    }

    /**
     * Tries every job once, in any order.  What the hook accepts leaves the queue and becomes known;
     * what it refuses stays, with one more attempt on record.
     */
    method DrainWakeQueue(accepts: set<File>) returns (tried: seq<File>)
      modifies this`queue, this`completed
      ensures forall f :: f in tried <==> f in old(queue)
      ensures forall i, j :: 0 <= i < j < |tried| ==> tried[i] != tried[j]
      ensures queue == map f | f in old(queue) && f !in accepts :: old(queue)[f] + 1
      ensures completed == RememberAll(old(completed), Taken(tried, accepts))
    {
      hide Taken, RememberAll, Remember;
      assert RememberAll(completed, Taken([], accepts)) == completed by { NothingTaken(completed, accepts); }
      tried := [];
      var files := queue.Keys;
      assert queue == PartlyDrained(queue, files, accepts);
      while files != {}
        invariant files <= old(queue).Keys
        invariant queue == PartlyDrained(old(queue), files, accepts)
        invariant forall f :: f in tried <==> f in old(queue) && f !in files
        invariant forall i, j :: 0 <= i < j < |tried| ==> tried[i] != tried[j]
        invariant completed == RememberAll(old(completed), Taken(tried, accepts))
      {
        var f :| f in files;
        TakenOneMore(tried, f, accepts, old(completed));
        TryWakeJob(f, f in accepts);
        files := files - {f};
        tried := tried + [f];
      }
    }

    /**
     * A wake that is not known to be done needs a room token, then lies in the queue before it is
     * acknowledged; the cursor moves only if the acknowledgement arrives, and then the queue is drained.
     */
    method HandleTurnReady(id: nat, room: RoomId, turn: Option<nat>, tokenReady: bool, ackArrives: bool, accepts: set<File>)
      returns (ok: bool, tried: seq<File>)
      modifies this
      ensures var job := DeliveryFile(id, room, turn);
              var known := job.WakeKey().Some? && job.WakeKey().value in old(completed);
              && ok == ((known || tokenReady) && ackArrives)
              && cursor == (if ok then Some(id) else old(cursor))
              && (known || !tokenReady ==> queue == old(queue) && completed == old(completed))
              && (!known && tokenReady && !ackArrives ==>
                    queue == Enqueued(old(completed), old(queue), job) && completed == old(completed))
              && (!known && ok ==>
                    var waiting := Enqueued(old(completed), old(queue), job);
                    && (forall f :: f in tried <==> f in waiting)
                    && queue == (map f | f in waiting && f !in accepts :: waiting[f] + 1)
                    && completed == RememberAll(old(completed), Taken(tried, accepts)))
    {
      tried := [];
      var job := DeliveryFile(id, room, turn);
      if job.WakeKey().Some? && job.WakeKey().value in completed {
        ok := ackArrives;
        if ok {
          cursor := Some(id);
        }
        return;
      }
      if !tokenReady {
        return false, [];
      }
      var file := EnqueueWakeJob(job);
      ok := ackArrives;
      if ok {
        cursor := Some(id);
        tried := DrainWakeQueue(accepts);
      }
    }

    method HandleTerminal(id: nat, r: RoomId, ackArrives: bool) returns (ok: bool)
      modifies this
      ensures queue == map f | f in old(queue) && f.Room() != r :: old(queue)[f]
      ensures completed == ForgetRoom(old(completed), r)
      ensures ok == ackArrives && cursor == (if ok then Some(id) else old(cursor))
    {
      DropWakeJobsForRoom(r);
      ForgetCompletedWakeKeysForRoom(r);
      ok := ackArrives;
      if ok {
        cursor := Some(id);
      }
    }

    /** The terminal half of recovery: nothing of a room that ended is queued or remembered. */
    method RecoverTerminal(ended: seq<RoomId>)
      modifies this`queue, this`completed
      ensures queue == map f | f in old(queue) && f.Room() !in ended :: old(queue)[f]
      ensures forall k :: k in completed <==> k in old(completed) && k.room !in ended
    {
      for i := 0 to |ended|
        invariant queue == map f | f in old(queue) && f.Room() !in ended[..i] :: old(queue)[f]
        invariant forall k :: k in completed <==> k in old(completed) && k.room !in ended[..i]
      {
        Handoff.ForgetRoomRemovesARoom(completed, ended[i]);
        DropWakeJobsForRoom(ended[i]);
        ForgetCompletedWakeKeysForRoom(ended[i]);
      }
      assert ended[..|ended|] == ended;
    }

    method RecoverRoom(k: Key)
      modifies this`queue
      ensures Restored(queue.Keys, completed, k)
      ensures forall f: File :: f.Room() != k.room ==> (f in queue <==> f in old(queue)) && (f in queue ==> queue[f] == old(queue)[f])
    {
      DropWakeJobsForRoom(k.room);
      if k !in completed {
        assert !Queued(queue.Keys, k);
        var file := EnqueueWakeJob(RecoveryFile(k));
      }
    }

    /**
     * The actionable half: the server's list replaces whatever was queued for its rooms; if it
     * names a room twice, the last entry counts.  Other rooms keep their jobs.
     */
    method RecoverActionable(actionable: seq<Key>)
      modifies this`queue
      ensures AllRestored(actionable, queue.Keys, completed)
      ensures SameElsewhere(actionable, old(queue), queue)
    {
      hide AllRestored, SameElsewhere, Restored;
      NoEntriesYet(queue, completed);
      for n := 0 to |actionable|
        invariant AllRestored(actionable[..n], queue.Keys, completed)
        invariant SameElsewhere(actionable[..n], old(queue), queue)
      {
        ghost var before := queue;
        RecoverRoom(actionable[n]);
        OneMoreEntry(actionable, n, old(queue), before, queue, completed);
      }
      assert actionable[..|actionable|] == actionable;
    }
  }

  /** The last entry of each room is restored. */
  ghost predicate AllRestored(entries: seq<Key>, queue: set<File>, completed: seq<Key>)
  {
    forall i :: 0 <= i < |entries| && LastOfItsRoom(entries, i) ==> Restored(queue, completed, entries[i])
  }

  /** Rooms without an entry keep their jobs. */
  ghost predicate SameElsewhere(entries: seq<Key>, before: map<File, nat>, after: map<File, nat>)
  {
    forall f: File :: !Names(entries, f.Room()) ==> (f in after <==> f in before) && (f in after ==> after[f] == before[f])
  }

  ghost predicate LastOfItsRoom(entries: seq<Key>, i: nat)
    requires i < |entries|
  {
    forall j :: i < j < |entries| ==> entries[j].room != entries[i].room
  }

  ghost predicate Names(entries: seq<Key>, r: RoomId)
  {
    exists i :: 0 <= i < |entries| && entries[i].room == r
  }

  lemma NoEntriesYet(queue: map<File, nat>, completed: seq<Key>)
    ensures AllRestored([], queue.Keys, completed) && SameElsewhere([], queue, queue)
  {}

  lemma NamesOneMore(entries: seq<Key>, n: nat, r: RoomId)
    requires n < |entries|
    ensures Names(entries[..n+1], r) <==> Names(entries[..n], r) || entries[n].room == r
  {
    assert forall j :: 0 <= j < n ==> entries[..n][j] == entries[..n+1][j];
    assert entries[..n+1][n] == entries[n];
  }

  lemma OtherRoomsStayRestored(before: map<File, nat>, after: map<File, nat>, completed: seq<Key>, r: RoomId, k: Key)
    requires Restored(before.Keys, completed, k) && k.room != r
    requires forall f: File :: f.Room() != r ==> (f in after <==> f in before)
    ensures Restored(after.Keys, completed, k)
  {}

  /** Restoring one room leaves what was restored for the others. */
  lemma OneMoreEntry(entries: seq<Key>, n: nat, start: map<File, nat>, before: map<File, nat>, after: map<File, nat>, completed: seq<Key>)
    requires n < |entries| && Restored(after.Keys, completed, entries[n])
    requires AllRestored(entries[..n], before.Keys, completed) && SameElsewhere(entries[..n], start, before)
    requires forall f: File :: f.Room() != entries[n].room ==> (f in after <==> f in before) && (f in after ==> after[f] == before[f])
    ensures AllRestored(entries[..n+1], after.Keys, completed) && SameElsewhere(entries[..n+1], start, after)
  {
    forall i | 0 <= i < n && LastOfItsRoom(entries[..n+1], i) ensures Restored(after.Keys, completed, entries[i]) {
      assert entries[..n+1][n].room != entries[i].room;
      assert forall j :: 0 <= j < n ==> entries[..n][j] == entries[..n+1][j];
      assert LastOfItsRoom(entries[..n], i);
      OtherRoomsStayRestored(before, after, completed, entries[n].room, entries[..n][i]);
    }
    hide Restored, Names;
    forall f: File | !Names(entries[..n+1], f.Room()) ensures (f in after <==> f in start) && (f in after ==> after[f] == start[f]) {
      NamesOneMore(entries, n, f.Room());
    }
  }
}
