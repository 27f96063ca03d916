/**
 * The versioned room context: compare-and-swap with at most five tries per call, under
 * arbitrarily interleaved callers.  Of the document only the fetch markers matter here.
 */
module ContextCas {
  import opened Prelude
  import opened RoomTables

  type CallId = nat
  const MAX_TRIES := 5

  datatype Doc = Doc(version: nat, marks: map<AgentId, nat>)

  /** A context acknowledgement by an agent, or a refresh that carries the markers forward. */
  datatype Job = Fetch(agent: AgentId, turn: nat) | Sync

  function Mutate(marks: map<AgentId, nat>, job: Job): map<AgentId, nat>
  {
    if job.Fetch? && (job.agent !in marks || job.turn > marks[job.agent]) then marks[job.agent := job.turn] else marks
  }

  function Marks(doc: Option<Doc>): map<AgentId, nat> { if doc.Some? then doc.value.marks else map[] }

  /** The version a writer that read `doc` will try to write. */
  function NextVersion(doc: Option<Doc>): nat { if doc.Some? then doc.value.version + 1 else 1 }

  /** `INSERT .. ON CONFLICT DO UPDATE .. WHERE version = EXCLUDED.version - 1`. */
  function Upsert(doc: Option<Doc>, version: nat, marks: map<AgentId, nat>): Option<Doc>
  {
    if doc.None? || doc.value.version + 1 == version then Some(Doc(version, marks)) else doc
  }

  predicate Conflicts(doc: Option<Doc>, version: nat) { doc.Some? && doc.value.version + 1 != version }

  /** The row takes a write that is its first or one version ahead, and no other. */
  lemma WritesAreVersioned(doc: Option<Doc>, version: nat, marks: map<AgentId, nat>)
    ensures Upsert(doc, version, marks) == if doc == None || version == doc.value.version + 1 then Some(Doc(version, marks)) else doc
    ensures Conflicts(doc, version) <==> doc != None && version != doc.value.version + 1
  {}

  // ---------- interleaved calls ----------

  /** `base` is the row the current try has read; `hits` counts the versions that others committed meanwhile. */
  datatype Call = Call(job: Job, tries: nat, base: Option<Option<Doc>>, hits: nat)

  /** `recent` is history: the successful calls since the last purge. */
  datatype Sys = Sys(doc: Option<Doc>, calls: map<CallId, Call>, recent: seq<Job>)

  datatype Event = Start(call: CallId, job: Job) | Read(call: CallId) | Write(call: CallId) | Drop(call: CallId) | PurgeDoc

  predicate Holds(s: Sys, e: Event)
    requires !e.PurgeDoc?
  {
    e.call in s.calls && s.calls[e.call].base.Some?
  }

  predicate Succeeds(s: Sys, e: Event)
    requires !e.PurgeDoc?
  {
    e.Write? && Holds(s, e) && !Conflicts(s.doc, NextVersion(s.calls[e.call].base.value))
  }

  /** A conflict on the last try ends the call with an error. */
  predicate Fails(s: Sys, e: Event)
    requires !e.PurgeDoc?
  {
    e.Write? && Holds(s, e) && !Succeeds(s, e) && s.calls[e.call].tries + 1 == MAX_TRIES
  }

  function Hit(c: Call): Call { if c.base.Some? then c.(hits := c.hits + 1) else c }

  function Apply(s: Sys, e: Event): Sys
  {
    match e
    case Start(k, job) => if k in s.calls then s else s.(calls := s.calls[k := Call(job, 0, None, 0)])
    case Read(k) => if k in s.calls then s.(calls := s.calls[k := s.calls[k].(base := Some(s.doc))]) else s
    case Write(k) =>
      if !Holds(s, e) then s
      else
        var c := s.calls[k];
        var others := map i | i in s.calls && i != k :: Hit(s.calls[i]);
        if Succeeds(s, e) then
          Sys(Upsert(s.doc, NextVersion(c.base.value), Mutate(Marks(c.base.value), c.job)), others, s.recent + [c.job])
        else if Fails(s, e) then s.(calls := s.calls - {k})
        else s.(calls := s.calls[k := c.(tries := c.tries + 1, base := None)])
    case Drop(k) => s.(calls := s.calls - {k})
    case PurgeDoc => s.(doc := None, recent := [])
  }

  function Run(s: Sys, es: seq<Event>): Sys
  {
    if es == [] then s else Apply(Run(s, es[..|es|-1]), es[|es|-1])
  }

  predicate NoPurge(es: seq<Event>) { forall i :: 0 <= i < |es| ==> !es[i].PurgeDoc? }

  /** The highest turn an agent has acknowledged successfully, if any. */
  function Highest(acks: seq<Job>, x: AgentId): Option<nat>
  {
    if acks == [] then None
    else
      var rest, last := Highest(acks[..|acks|-1], x), acks[|acks|-1];
      if last.Fetch? && last.agent == x && (rest.None? || last.turn > rest.value) then Some(last.turn) else rest
  }

  lemma {:induction false} HighestIsTheMaximum(acks: seq<Job>, x: AgentId)
    ensures Highest(acks, x).None? <==> forall i :: 0 <= i < |acks| && acks[i].Fetch? ==> acks[i].agent != x
    ensures Highest(acks, x).Some? ==>
              && Fetch(x, Highest(acks, x).value) in acks
              && forall i :: 0 <= i < |acks| && acks[i].Fetch? && acks[i].agent == x ==> acks[i].turn <= Highest(acks, x).value
  {
    if acks != [] {
      HighestIsTheMaximum(acks[..|acks|-1], x);
      assert acks == acks[..|acks|-1] + [acks[|acks|-1]];
    }
  }

  function Mark(doc: Option<Doc>, x: AgentId): Option<nat>
  {
    if x in Marks(doc) then Some(Marks(doc)[x]) else None
  }

  ghost predicate CallOk(doc: Option<Doc>, c: Call)
  {
    && c.tries < MAX_TRIES
    && c.tries + (if c.base.Some? && c.base.value != doc then 1 else 0) <= c.hits
    && (c.base.Some? && c.base.value.Some? ==>
          doc.Some? && c.base.value.value.version <= doc.value.version
          && (c.base.value.value.version == doc.value.version ==> c.base.value == doc))
  }

  ghost predicate Inv(s: Sys)
  {
    && (s.doc.Some? ==> s.doc.value.version >= 1)
    && (forall k :: k in s.calls ==> CallOk(s.doc, s.calls[k]))
    && Exact(s)
  }

  /** The stored markers are the highest turns acknowledged since the last purge. */
  ghost predicate Exact(s: Sys)
  {
    forall x :: Mark(s.doc, x) == Highest(s.recent, x)
  }

  // ---------- exactly when a write loses nothing ----------

  /** A marker after the job. */
  function Raised(mark: Option<nat>, job: Job, x: AgentId): Option<nat>
  {
    if job.Fetch? && job.agent == x && (mark.None? || job.turn > mark.value) then Some(job.turn) else mark
  }

  /** What the call read shows the same markers as the row does now, up to the turn it acknowledges itself. */
  ghost predicate ShowsTheRow(s: Sys, k: CallId)
    requires Holds(s, Write(k))
  {
    var c := s.calls[k];
    forall x :: Raised(Mark(c.base.value, x), c.job, x) == Raised(Mark(s.doc, x), c.job, x)
  }

  lemma WriteIsExactIff(s: Sys, k: CallId)
    requires Exact(s) && Succeeds(s, Write(k))
    ensures Exact(Apply(s, Write(k))) <==> ShowsTheRow(s, k)
    ensures s.calls[k].base.value == s.doc ==> ShowsTheRow(s, k)
  {
    var s', job := Apply(s, Write(k)), s.calls[k].job;
    assert s'.recent[..|s'.recent|-1] == s.recent;
    forall x
      ensures Highest(s'.recent, x) == Raised(Mark(s.doc, x), job, x)
      ensures Mark(s'.doc, x) == Raised(Mark(s.calls[k].base.value, x), job, x)
    {
      assert Mark(s.doc, x) == Highest(s.recent, x);
    }
  }

  /** The check a successful write would have to pass. */
  ghost predicate FineWrite(s: Sys, e: Event)
  {
    e.Write? && Succeeds(s, e) ==> ShowsTheRow(s, e.call)
  }

  lemma StepIsExactIff(s: Sys, e: Event)
    requires Exact(s)
    ensures Exact(Apply(s, e)) <==> FineWrite(s, e)
  {
    if e.Write? && Succeeds(s, e) {
      WriteIsExactIff(s, e.call);
    }
  }

  ghost predicate ExactThroughout(s: Sys, es: seq<Event>)
  {
    Exact(Run(s, es)) && (es == [] || ExactThroughout(s, es[..|es|-1]))
  }

  ghost predicate FineWrites(s: Sys, es: seq<Event>)
  {
    es == [] || (FineWrites(s, es[..|es|-1]) && FineWrite(Run(s, es[..|es|-1]), es[|es|-1]))
  }

  /** In runs with any purges: markers are exact throughout if and only if every write that goes through read what the row still shows. */
  lemma {:induction false} MarkersAreExactIff(s: Sys, es: seq<Event>)
    requires Exact(s)
    ensures ExactThroughout(s, es) <==> FineWrites(s, es)
  {
    hide Exact, FineWrite, Apply;
    if es != [] {
      var before := es[..|es|-1];
      MarkersAreExactIff(s, before);
      if ExactThroughout(s, before) {
        ExactAtTheEnd(s, before);
        StepIsExactIff(Run(s, before), es[|es|-1]);
      }
    }
  }

  lemma ExactAtTheEnd(s: Sys, es: seq<Event>)
    requires ExactThroughout(s, es)
    ensures Exact(Run(s, es))
  {}

  /** A write goes through exactly when nobody committed since its read. */
  lemma SucceedsIffUndisturbed(s: Sys, k: CallId)
    requires Inv(s) && Holds(s, Write(k))
    ensures Succeeds(s, Write(k)) <==> s.calls[k].base.value == s.doc
  {
    assert CallOk(s.doc, s.calls[k]);
  }

  lemma WriteKeeps(s: Sys, k: CallId)
    requires Inv(s) && Succeeds(s, Write(k))
    ensures Inv(Apply(s, Write(k)))
  {
    SucceedsIffUndisturbed(s, k);
    var s' := Apply(s, Write(k));
    var job := s.calls[k].job;
    forall i | i in s'.calls ensures CallOk(s'.doc, s'.calls[i]) {
      assert CallOk(s.doc, s.calls[i]);
    }
    WriteIsExactIff(s, k);
  }

  lemma ApplyKeeps(s: Sys, e: Event)
    requires Inv(s) && !e.PurgeDoc?
    ensures Inv(Apply(s, e))
    ensures Apply(s, e).recent == if Succeeds(s, e) then s.recent + [s.calls[e.call].job] else s.recent
  {
    if Succeeds(s, e) {
      WriteKeeps(s, e.call);
    } else {
      if Holds(s, e) { SucceedsIffUndisturbed(s, e.call); }
      var s' := Apply(s, e);
      forall i | i in s'.calls ensures CallOk(s'.doc, s'.calls[i]) {
        assert i in s.calls ==> CallOk(s.doc, s.calls[i]);
      }
    }
  }

  lemma {:induction false} RunKeeps(s: Sys, es: seq<Event>)
    requires Inv(s) && NoPurge(es)
    ensures Inv(Run(s, es)) && s.recent <= Run(s, es).recent
  {
    if es != [] {
      RunKeeps(s, es[..|es|-1]);
      ApplyKeeps(Run(s, es[..|es|-1]), es[|es|-1]);
    }
  }

  /** Nothing is lost: the stored marker is the maximum successfully acknowledged, so it never falls. */
  lemma MarkersNeverLoseAnAck(s: Sys, es: seq<Event>, x: AgentId)
    requires Inv(s) && NoPurge(es)
    ensures Mark(Run(s, es).doc, x) == Highest(Run(s, es).recent, x)
    ensures Mark(s.doc, x).Some? ==> Mark(Run(s, es).doc, x).Some? && Mark(s.doc, x).value <= Mark(Run(s, es).doc, x).value
  {
    RunKeeps(s, es);
    HighestIsTheMaximum(s.recent, x);
    HighestIsTheMaximum(Run(s, es).recent, x);
    if Mark(s.doc, x).Some? {
      var end := Run(s, es).recent;
      var i :| 0 <= i < |s.recent| && s.recent[i] == Fetch(x, Mark(s.doc, x).value);
      assert end[i] == s.recent[i];
    }
  }

  /** Only a call disturbed by at least five commits of others can end in a conflict. */
  lemma FourHitsAreSurvived(s: Sys, es: seq<Event>, k: CallId)
    requires Inv(s) && NoPurge(es) && Holds(Run(s, es), Write(k))
    requires Run(s, es).calls[k].hits <= 4
    ensures !Fails(Run(s, es), Write(k))
  {
    RunKeeps(s, es);
    SucceedsIffUndisturbed(Run(s, es), k);
    assert CallOk(Run(s, es).doc, Run(s, es).calls[k]);
  }

  /** The fifth conflict of a call is its last: it ends with an error, and the four before it do not end it. */
  lemma FifthConflictFails(s: Sys, k: CallId)
    requires Holds(s, Write(k)) && !Succeeds(s, Write(k))
    ensures Fails(s, Write(k)) <==> s.calls[k].tries == 4
    ensures if s.calls[k].tries == 4 then k !in Apply(s, Write(k)).calls
            else Apply(s, Write(k)).calls[k] == s.calls[k].(tries := s.calls[k].tries + 1, base := None)
    ensures Apply(s, Write(k)).doc == s.doc && Apply(s, Write(k)).recent == s.recent
  {}

  lemma Unroll(s: Sys, es: seq<Event>, i: nat)
    requires i < |es|
    ensures Run(s, es[..i+1]) == Apply(Run(s, es[..i]), es[i])
    ensures i == 0 ==> Run(s, es[..i]) == s
  {
    assert es[..i+1][..i] == es[..i];
  }

  const OLD_DOC: Option<Doc> := Some(Doc(1, map[]))
  const STALE: Call := Call(Sync, 0, Some(OLD_DOC), 0)
  const START: Sys := Sys(OLD_DOC, map[], [])
  const RACE: seq<Event> := [Start(0, Sync), Read(0), PurgeDoc, Start(1, Fetch(2, 7)), Read(1), Write(1), Write(0)]

  lemma RaceUntilPurge()
    ensures Run(START, RACE[..3]) == Sys(None, map[0 := STALE], [])
  {
    Unroll(START, RACE, 0); Unroll(START, RACE, 1); Unroll(START, RACE, 2);
    hide Run;
    assert Run(START, RACE[..1]) == Sys(OLD_DOC, map[0 := Call(Sync, 0, None, 0)], []);
    assert Run(START, RACE[..2]) == Sys(OLD_DOC, map[0 := STALE], []);
  }

  lemma RaceUntilSecondRead()
    ensures Run(START, RACE[..5]) == Sys(None, map[0 := STALE, 1 := Call(Fetch(2, 7), 0, Some(None), 0)], [])
  {
    RaceUntilPurge();
    Unroll(START, RACE, 3); Unroll(START, RACE, 4);
    hide Run;
    assert Run(START, RACE[..4]) == Sys(None, map[0 := STALE, 1 := Call(Fetch(2, 7), 0, None, 0)], []);
  }

  lemma RaceUntilAck()
    ensures Run(START, RACE[..6]) == Sys(Some(Doc(1, map[2 := 7])), map[0 := STALE.(hits := 1)], [Fetch(2, 7)])
  {
    RaceUntilSecondRead();
    Unroll(START, RACE, 5);
    hide Run;
    assert Mutate(map[], Fetch(2, 7)) == map[2 := 7];
  }

  /** Across a purge the version restarts, an old writer's version fits again, and an ack is lost. */
  lemma PurgeCanLoseAnAck()
    ensures exists s, es :: Inv(s) && !NoPurge(es) && Fetch(2, 7) in Run(s, es).recent && Mark(Run(s, es).doc, 2).None?
  {
    RaceUntilAck();
    Unroll(START, RACE, 6);
    hide Run;
    assert RACE[..7] == RACE && RACE[2].PurgeDoc?;
    assert Run(START, RACE).recent == [Fetch(2, 7), Sync];
  }

  // ---------- one call, step by step ----------

  /** What a row becomes when `job` reads and writes it undisturbed. */
  function Committed(doc: Option<Doc>, job: Job): Option<Doc>
  {
    Some(Doc(NextVersion(doc), Mutate(Marks(doc), job)))
  }

  function CommittedAll(doc: Option<Doc>, jobs: seq<Job>): Option<Doc>
  {
    if jobs == [] then doc else Committed(CommittedAll(doc, jobs[..|jobs|-1]), jobs[|jobs|-1])
  }

  function Flatten(batches: seq<seq<Job>>): seq<Job>
  {
    if batches == [] then [] else Flatten(batches[..|batches|-1]) + batches[|batches|-1]
  }

  lemma {:induction false} CommittedInTwo(doc: Option<Doc>, first: seq<Job>, second: seq<Job>)
    ensures CommittedAll(doc, first + second) == CommittedAll(CommittedAll(doc, first), second)
    ensures second != [] ==> NextVersion(CommittedAll(doc, second)) > NextVersion(doc)
  {
    if second == [] {
      assert first + second == first;
    } else {
      var init := second[..|second|-1];
      CommittedInTwo(doc, first, init);
      assert (first + second)[..|first + second|-1] == first + init;
    }
  }

  lemma NothingCommitted(doc: Option<Doc>, others: seq<seq<Job>>)
    ensures CommittedAll(doc, Flatten(others[..0])) == doc
  {}

  lemma OneMoreBatch(start: Option<Doc>, read: Option<Doc>, others: seq<seq<Job>>, n: nat)
    requires n < |others| && read == CommittedAll(start, Flatten(others[..n]))
    ensures CommittedAll(read, others[n]) == CommittedAll(start, Flatten(others[..n+1]))
  {
    assert others[..n+1][..n] == others[..n];
    CommittedInTwo(start, Flatten(others[..n]), others[n]);
  }

  /** A write conflicts exactly when something was committed since its read; otherwise it commits its own job. */
  lemma UndisturbedWrite(read: Option<Doc>, during: seq<Job>, job: Job)
    requires read.Some? ==> read.value.version >= 1
    ensures var now, version := CommittedAll(read, during), NextVersion(read);
            && (Conflicts(now, version) <==> during != [])
            && (during == [] ==> Upsert(now, version, Mutate(Marks(read), job)) == Committed(read, job) && now == read)
  {
    CommittedInTwo(read, [], during);
    if during != [] {
      assert NextVersion(CommittedAll(read, during)) > NextVersion(read);
    }
  }

  class ContextRow {
    var doc: Option<Doc>

    constructor (doc: Option<Doc>)
      ensures this.doc == doc
    {
      this.doc := doc;
    }

    /**
     * The retry loop of one call.  `others[i]` is what other callers commit between the read and
     * the write of try i.  The call succeeds exactly when some try is undisturbed, and then its
     * change sits on top of everything that was committed before it.
     */
    method Update(job: Job, others: seq<seq<Job>>) returns (ok: bool, tries: nat)
      requires |others| == MAX_TRIES && (doc.Some? ==> doc.value.version >= 1)
      modifies this
      ensures 1 <= tries <= MAX_TRIES
      ensures ok <==> exists i :: 0 <= i < MAX_TRIES && others[i] == []
      ensures ok ==> others[tries-1] == [] && forall i :: 0 <= i < tries - 1 ==> others[i] != []
      ensures ok ==> doc == Committed(CommittedAll(old(doc), Flatten(others[..tries])), job)
      ensures !ok ==> tries == MAX_TRIES && doc == CommittedAll(old(doc), Flatten(others))
    {
      ok, tries := false, 0;
      hide CommittedAll, Committed, Mutate;
      assert CommittedAll(doc, Flatten(others[..0])) == doc by { NothingCommitted(doc, others); }
      while tries < MAX_TRIES
        invariant 0 <= tries <= MAX_TRIES && !ok
        invariant doc.Some? ==> doc.value.version >= 1
        invariant forall i :: 0 <= i < tries ==> others[i] != []
        invariant doc == CommittedAll(old(doc), Flatten(others[..tries]))
      {
        var version, marks := NextVersion(doc), Mutate(Marks(doc), job);
        ghost var read := doc;
        OthersCommit(others[tries]);
        OneMoreBatch(old(doc), read, others, tries);
        UndisturbedWrite(read, others[tries], job);
        tries := tries + 1;
        if !Conflicts(doc, version) {
          doc := Upsert(doc, version, marks);
          ok := true;
          return;
        }
      }
      assert others[..tries] == others;
    }

    method OthersCommit(jobs: seq<Job>)
      requires doc.Some? ==> doc.value.version >= 1
      modifies this
      ensures doc == CommittedAll(old(doc), jobs)
      ensures doc.Some? ==> doc.value.version >= 1
    {
      var i := 0;
      while i < |jobs|
        invariant 0 <= i <= |jobs|
        invariant doc == CommittedAll(old(doc), jobs[..i])
        invariant doc.Some? ==> doc.value.version >= 1
      {
        assert jobs[..i+1][..i] == jobs[..i];
        doc := Committed(doc, jobs[i]);
        i := i + 1;
      }
      assert jobs[..i] == jobs;
    }
  }
}
