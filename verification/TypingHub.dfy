/**
 * Who is typing in which room: a cache of presences with a timer each.  The cache answers exactly
 * what the log of starts, stops and clears says, whenever its timers happen to fire.
 */
module TypingHub {
  import opened Prelude

  type Id = string

  /** Times are in milliseconds. */
  const DEFAULT_TTL := 7000
  const MIN_TTL := 1000
  const MAX_TTL := 30000

  datatype Presence = Presence(createdAt: Time, expiresAt: Time)

  function ClampTTL(ttl: int): (t: int)
    ensures (1000 <= ttl <= 30000 ==> t == ttl) && (ttl < 1000 ==> t == 7000) && (ttl > 30000 ==> t == 30000)
  {
    if ttl < MIN_TTL then DEFAULT_TTL else if ttl > MAX_TTL then MAX_TTL else ttl
  }

  // ---------- the cache ----------

  type Room = map<Id, Presence>

  function RoomOf(active: map<Id, Room>, r: Id): Room { if r in active then active[r] else map[] }

  /** A room nobody types in is not kept. */
  function SetRoom(active: map<Id, Room>, r: Id, m: Room): map<Id, Room> { if m == map[] then active - {r} else active[r := m] }

  /** The presences that have not run out. */
  function Current(m: Room, now: Time): Room
  {
    map a | a in m && now < m[a].expiresAt :: m[a]
  }

  function Prune(active: map<Id, Room>, r: Id, now: Time): map<Id, Room>
  {
    SetRoom(active, r, Current(RoomOf(active, r), now))
  }

  function Start(active: map<Id, Room>, r: Id, a: Id, now: Time, ttl: int): map<Id, Room>
  {
    if r == "" || a == "" then active
    else SetRoom(active, r, Current(RoomOf(active, r), now)[a := Presence(now, now + ClampTTL(ttl))])
  }

  function Stop(active: map<Id, Room>, r: Id, a: Id): map<Id, Room>
  {
    SetRoom(active, r, RoomOf(active, r) - {a})
  }

  /** What a timer does when it fires: only the presence it was set for is removed. */
  function Expire(active: map<Id, Room>, r: Id, a: Id, expected: Time): map<Id, Room>
  {
    if a in RoomOf(active, r) && RoomOf(active, r)[a].expiresAt == expected then Stop(active, r, a) else active
  }

  // ---------- runs, against the log ----------

  datatype Entry = Started(room: Id, actor: Id, expiresAt: Time) | Stopped(room: Id, actor: Id) | Cleared(room: Id)

  datatype Hub = Hub(active: map<Id, Room>, clock: Time, log: seq<Entry>)

  datatype Event =
    | Tick(later: Time)
    | DoStart(room: Id, actor: Id, ttl: int)
    | DoStop(room: Id, actor: Id)
    | DoClear(room: Id)
    | TimerFires(room: Id, actor: Id, expected: Time)
    | DoPrune(room: Id)

  /** Timers never fire early, but they may fire late, after they were superseded, or more than once. */
  function Apply(h: Hub, e: Event): Hub
  {
    match e
    case Tick(later) => if later >= h.clock then h.(clock := later) else h
    case DoStart(r, a, ttl) =>
      if r == "" || a == "" then h
      else h.(active := Start(h.active, r, a, h.clock, ttl), log := h.log + [Started(r, a, h.clock + ClampTTL(ttl))])
    case DoStop(r, a) => h.(active := Stop(h.active, r, a), log := h.log + [Stopped(r, a)])
    case DoClear(r) => h.(active := h.active - {r}, log := h.log + [Cleared(r)])
    case TimerFires(r, a, expected) => if expected > h.clock then h else h.(active := Expire(h.active, r, a, expected))
    case DoPrune(r) => h.(active := Prune(h.active, r, h.clock))
  }

  function Run(h: Hub, es: seq<Event>): Hub
  {
    if es == [] then h else Apply(Run(h, es[..|es|-1]), es[|es|-1])
  }

  const START_HUB := Hub(map[], 0, [])

  /** When the actor's last start runs out, if nothing after it stopped the actor or cleared the room. */
  function LastStart(log: seq<Entry>, r: Id, a: Id): Option<Time>
  {
    if log == [] then None
    else
      var e := log[|log|-1];
      if e.Started? && e.room == r && e.actor == a then Some(e.expiresAt)
      else if (e.Stopped? && e.room == r && e.actor == a) || (e.Cleared? && e.room == r) then None
      else LastStart(log[..|log|-1], r, a)
  }

  /** The same, said by position: the entry that counts, with nothing after it that ends it. */
  lemma {:induction false} LastStartIsTheLastOne(log: seq<Entry>, r: Id, a: Id, until: Time)
    ensures LastStart(log, r, a) == Some(until) <==>
            exists i :: 0 <= i < |log| && log[i] == Started(r, a, until) && NothingAfter(log, i, r, a)
  {
    if log != [] {
      var n := |log| - 1;
      LastStartIsTheLastOne(log[..n], r, a, until);
      forall i | 0 <= i < n ensures NothingAfter(log, i, r, a) <==> NothingAfter(log[..n], i, r, a) && !Ends(log[n], r, a) {
        assert NothingAfter(log, i, r, a) ==> NothingAfter(log[..n], i, r, a);
      }
      if LastStart(log, r, a) == Some(until) {
        if log[n] == Started(r, a, until) {
          assert NothingAfter(log, n, r, a);
        } else {
          var i :| 0 <= i < n && log[..n][i] == Started(r, a, until) && NothingAfter(log[..n], i, r, a);
          assert log[i] == Started(r, a, until) && NothingAfter(log, i, r, a);
        }
      }
      if i :| 0 <= i < |log| && log[i] == Started(r, a, until) && NothingAfter(log, i, r, a) {
        if i < n {
          assert log[..n][i] == Started(r, a, until) && NothingAfter(log[..n], i, r, a);
          assert !Ends(log[n], r, a);
        }
      }
    }
  }

  predicate Ends(e: Entry, r: Id, a: Id)
  {
    e.room == r && (e.Cleared? || e.actor == a)
  }

  predicate NothingAfter(log: seq<Entry>, i: nat, r: Id, a: Id)
  {
    forall j :: i < j < |log| ==> !Ends(log[j], r, a)
  }

  /** The cache holds nothing the log has ended, and everything the log says is still running. */
  ghost predicate Tracks(active: map<Id, Room>, log: seq<Entry>, clock: Time, r: Id, a: Id)
  {
    && (a in RoomOf(active, r) ==> LastStart(log, r, a) == Some(RoomOf(active, r)[a].expiresAt))
    && (LastStart(log, r, a).Some? && LastStart(log, r, a).value > clock ==> a in RoomOf(active, r))
  }

  ghost predicate Inv(h: Hub)
  {
    forall r, a :: Tracks(h.active, h.log, h.clock, r, a)
  }

  lemma LogOneMore(log: seq<Entry>, e: Entry, r: Id, a: Id)
    ensures LastStart(log + [e], r, a) == if Ends(e, r, a) then (if e.Started? then Some(e.expiresAt) else None) else LastStart(log, r, a)
  {
    assert (log + [e])[..|log|] == log;
  }

  lemma ApplyTracks(h: Hub, e: Event, r: Id, a: Id)
    requires Inv(h)
    ensures var h' := Apply(h, e); Tracks(h'.active, h'.log, h'.clock, r, a)
  {
    hide LastStart, ClampTTL;
    assert Tracks(h.active, h.log, h.clock, r, a);
    match e
    case DoStart(q, b, ttl) => LogOneMore(h.log, Started(q, b, h.clock + ClampTTL(ttl)), r, a);
    case DoStop(q, b) => LogOneMore(h.log, Stopped(q, b), r, a);
    case DoClear(q) => LogOneMore(h.log, Cleared(q), r, a);
    case _ =>
  }

  lemma {:induction false} RunKeeps(es: seq<Event>)
    ensures Inv(Run(START_HUB, es))
  {
    hide Apply;
    if es != [] {
      RunKeeps(es[..|es|-1]);
      forall r, a ensures Tracks(Run(START_HUB, es).active, Run(START_HUB, es).log, Run(START_HUB, es).clock, r, a) {
        ApplyTracks(Run(START_HUB, es[..|es|-1]), es[|es|-1], r, a);
      }
    }
  }

  /**
   * A snapshot taken at the end of any run, now or later, shows an actor with an expiry time if and
   * only if that is when the actor's last unended start runs out, and it has not run out yet.
   */
  lemma SnapshotIsTheLog(es: seq<Event>, r: Id, a: Id, now: Time, until: Time)
    requires now >= Run(START_HUB, es).clock
    ensures var end := Run(START_HUB, es);
            var shown := RoomOf(Prune(end.active, r, now), r);
            (a in shown && shown[a].expiresAt == until) <==> (LastStart(end.log, r, a) == Some(until) && now < until)
  {
    RunKeeps(es);
    var end := Run(START_HUB, es);
    hide Run;
    assert Tracks(end.active, end.log, end.clock, r, a);
  }

  /** A timer of an earlier start leaves a later, still running presence alone. */
  lemma SupersededTimersAreHarmless(es: seq<Event>, r: Id, a: Id, expected: Time)
    ensures var end := Run(START_HUB, es);
            var after := Apply(end, TimerFires(r, a, expected));
            forall q, b :: LastStart(end.log, q, b).Some? && LastStart(end.log, q, b).value > end.clock ==>
              b in RoomOf(after.active, q) && after.active[q][b] == end.active[q][b]
  {
    RunKeeps(es);
    var end := Run(START_HUB, es);
    hide Run, LastStart;
    forall q, b | LastStart(end.log, q, b).Some? && LastStart(end.log, q, b).value > end.clock
      ensures b in RoomOf(Apply(end, TimerFires(r, a, expected)).active, q)
           && Apply(end, TimerFires(r, a, expected)).active[q][b] == end.active[q][b]
    {
      assert Tracks(end.active, end.log, end.clock, q, b);
    }
  }

  /** A start shows its actor from now until its time runs out, beside those of the room that have not run out, and leaves other rooms alone. */
  lemma StartIsShown(active: map<Id, Room>, r: Id, a: Id, now: Time, ttl: int)
    requires r != "" && a != ""
    ensures var after := Start(active, r, a, now, ttl);
            && r in after && a in after[r] && after[r][a] == Presence(now, now + ClampTTL(ttl))
            && (forall b :: b != a ==> (b in after[r] <==> b in RoomOf(active, r) && now < RoomOf(active, r)[b].expiresAt)
                                       && (b in after[r] ==> after[r][b] == active[r][b]))
            && forall q :: q != r ==> RoomOf(after, q) == RoomOf(active, q)
  {
    var m := Current(RoomOf(active, r), now)[a := Presence(now, now + ClampTTL(ttl))];
    assert a in m && m != map[];
  }

  /** A timer removes the presence it was set for, and that one only. */
  lemma TimersRemoveTheirOwn(active: map<Id, Room>, r: Id, a: Id, expected: Time)
    ensures var after := Expire(active, r, a, expected);
            && (a in RoomOf(after, r) <==> a in RoomOf(active, r) && active[r][a].expiresAt != expected)
            && forall q, b :: q != r || b != a ==> (b in RoomOf(after, q) <==> b in RoomOf(active, q)) && (b in RoomOf(after, q) ==> after[q][b] == active[q][b])
  {}

  // ---------- the hub itself ----------

  class PresenceHub {
    var activeByRoom: map<Id, Room>

    constructor ()
      ensures activeByRoom == map[]
    {
      activeByRoom := map[];
    }

    method PruneExpired(r: Id, now: Time)
      requires r in activeByRoom ==> activeByRoom[r] != map[]
      modifies this
      ensures activeByRoom == Prune(old(activeByRoom), r, now)
    {
      if r !in activeByRoom {
        return;
      }
      var states := activeByRoom[r];
      var todo := states.Keys;
      while todo != {}
        invariant todo <= states.Keys <= old(activeByRoom)[r].Keys
        invariant forall a :: a in old(activeByRoom)[r] && a !in todo ==> (a in states <==> now < old(activeByRoom)[r][a].expiresAt)
        invariant forall a :: a in states ==> states[a] == old(activeByRoom)[r][a]
      {
        var a :| a in todo;
        if now >= states[a].expiresAt {
          states := states - {a};
        }
        todo := todo - {a};
      }
      assert states == Current(old(activeByRoom)[r], now);
      activeByRoom := SetRoom(activeByRoom, r, states);
    }

    method StartTyping(r: Id, a: Id, now: Time, ttl: int)
      requires r in activeByRoom ==> activeByRoom[r] != map[]
      modifies this
      ensures activeByRoom == Start(old(activeByRoom), r, a, now, ttl)
    {
      if r == "" || a == "" {
        return;
      }
      var clamped := if ttl < MIN_TTL then DEFAULT_TTL else ttl;
      if clamped > MAX_TTL {
        clamped := MAX_TTL;
      }
      PruneExpired(r, now);
      var states := if r in activeByRoom then activeByRoom[r] else map[];
      var states' := states[a := Presence(now, now + clamped)];
      assert a in states' && states == Current(RoomOf(old(activeByRoom), r), now);
      assert activeByRoom[r := states'] == old(activeByRoom)[r := states'];
      activeByRoom := activeByRoom[r := states'];
    }

    method StopTyping(r: Id, a: Id) returns (stopped: bool)
      requires r in activeByRoom ==> activeByRoom[r] != map[]
      modifies this
      ensures stopped <==> a in RoomOf(old(activeByRoom), r)
      ensures activeByRoom == Stop(old(activeByRoom), r, a)
    {
      stopped := r in activeByRoom && a in activeByRoom[r];
      if stopped {
        var states := activeByRoom[r] - {a};
        activeByRoom := if states == map[] then activeByRoom - {r} else activeByRoom[r := states];
      } else {
        assert RoomOf(activeByRoom, r) - {a} == RoomOf(activeByRoom, r);
        assert r in activeByRoom ==> activeByRoom[r := activeByRoom[r]] == activeByRoom;
      }
    }

    /** Announces a stop for every actor of the room, once each. */
    method ClearRoom(r: Id) returns (stopped: seq<Id>)
      modifies this
      ensures activeByRoom == old(activeByRoom) - {r}
      ensures forall a :: a in stopped <==> a in RoomOf(old(activeByRoom), r)
      ensures forall i, j :: 0 <= i < j < |stopped| ==> stopped[i] != stopped[j]
    {
      stopped := [];
      if r in activeByRoom {
        stopped := Actors(activeByRoom[r]);
        activeByRoom := activeByRoom - {r};
      }
    }

    static method Actors(m: Room) returns (out: seq<Id>)
      ensures forall a :: a in out <==> a in m
      ensures forall i, j :: 0 <= i < j < |out| ==> out[i] != out[j]
    {
      out := [];
      var todo := m.Keys;
      while todo != {}
        invariant todo <= m.Keys && forall a :: a in out <==> a in m && a !in todo
        invariant forall i, j :: 0 <= i < j < |out| ==> out[i] != out[j]
      {
        var a :| a in todo;
        out := out + [a];
        todo := todo - {a};
      }
    }

    /** Every actor still typing, once each, with the time its presence runs out. */
    method Snapshot(r: Id, now: Time) returns (actors: seq<Id>, presences: Room)
      requires r in activeByRoom ==> activeByRoom[r] != map[]
      modifies this
      ensures activeByRoom == Prune(old(activeByRoom), r, now)
      ensures presences == Current(RoomOf(old(activeByRoom), r), now)
      ensures forall a :: a in actors <==> a in presences
      ensures forall i, j :: 0 <= i < j < |actors| ==> actors[i] != actors[j]
    {
      PruneExpired(r, now);
      presences := if r in activeByRoom then activeByRoom[r] else map[];
      actors := Actors(presences);
    }

    method ExpireTyping(r: Id, a: Id, expected: Time)
      requires r in activeByRoom ==> activeByRoom[r] != map[]
      modifies this
      ensures activeByRoom == Expire(old(activeByRoom), r, a, expected)
    {
      if r in activeByRoom && a in activeByRoom[r] && activeByRoom[r][a].expiresAt == expected {
        var states := activeByRoom[r] - {a};
        activeByRoom := if states == map[] then activeByRoom - {r} else activeByRoom[r := states];
      }
    }
  }
}
