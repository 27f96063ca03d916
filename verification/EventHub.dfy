/** The hub that fans room events out to the open streams of this process, dropping readers that fall behind. */
module EventHub {
  import opened Prelude

  type RoomId = string

  datatype RoomEvent = RoomEvent(room: RoomId, id: nat)

  /** A subscription as its reader sees it.  A closed channel still yields what it buffered. */
  datatype Sub = Sub(room: RoomId, chan: seq<RoomEvent>, closed: bool, dropped: bool)

  predicate Registered(subs: map<nat, Sub>, byRoom: map<RoomId, set<nat>>, id: nat)
    requires id in subs
  {
    subs[id].room in byRoom && id in byRoom[subs[id].room]
  }

  /** The hub serves open subscriptions of the right room, and every open subscription is served. */
  ghost predicate Consistent(subs: map<nat, Sub>, byRoom: map<RoomId, set<nat>>, buffer: nat)
  {
    && (forall r :: r in byRoom ==> r != "" && byRoom[r] != {})
    && (forall r, id :: r in byRoom && id in byRoom[r] ==> id in subs && subs[id].room == r)
    && (forall id :: id in subs ==> |subs[id].chan| <= buffer && (subs[id].closed <==> !Registered(subs, byRoom, id)))
    && (forall id :: id in subs ==> subs[id].dropped ==> subs[id].closed)
  }

  function Unlist(byRoom: map<RoomId, set<nat>>, room: RoomId, gone: set<nat>): map<RoomId, set<nat>>
    requires room in byRoom
  {
    if byRoom[room] - gone == {} then byRoom - {room} else byRoom[room := byRoom[room] - gone]
  }

  /** Taking readers off the list while closing them keeps the books straight. */
  lemma UnlistKeeps(subs: map<nat, Sub>, byRoom: map<RoomId, set<nat>>, buffer: nat, room: RoomId, gone: set<nat>, subs': map<nat, Sub>)
    requires Consistent(subs, byRoom, buffer) && room in byRoom && gone <= byRoom[room]
    requires subs'.Keys == subs.Keys
    requires forall id :: id in subs && id !in gone ==> subs'[id] == subs[id]
    requires forall id :: id in gone ==> subs'[id].closed && subs'[id].room == room && |subs'[id].chan| <= buffer
    ensures Consistent(subs', Unlist(byRoom, room, gone), buffer)
    ensures forall id :: id in subs ==> (Registered(subs', Unlist(byRoom, room, gone), id) <==> Registered(subs, byRoom, id) && id !in gone)
  {
    var byRoom' := Unlist(byRoom, room, gone);
    forall id | id in subs
      ensures Registered(subs', byRoom', id) <==> Registered(subs, byRoom, id) && id !in gone
    {
      assert subs'[id].room == subs[id].room;
      assert id in byRoom[room] - gone <==> id in byRoom[room] && id !in gone;
    }
    forall r | r in byRoom' ensures r in byRoom && byRoom'[r] <= byRoom[r] && byRoom'[r] != {} {
    }
    forall id | id in subs' ensures |subs'[id].chan| <= buffer && (subs'[id].closed <==> !Registered(subs', byRoom', id)) && (subs'[id].dropped ==> subs'[id].closed) {
      assert id !in gone ==> subs'[id] == subs[id];
    }
  }

  lemma ChannelsDoNotMatter(subs: map<nat, Sub>, byRoom: map<RoomId, set<nat>>, buffer: nat, id: nat, chan: seq<RoomEvent>)
    requires Consistent(subs, byRoom, buffer) && id in subs && |chan| <= buffer
    ensures Consistent(subs[id := subs[id].(chan := chan)], byRoom, buffer)
    ensures forall k :: k in subs ==> (Registered(subs[id := subs[id].(chan := chan)], byRoom, k) <==> Registered(subs, byRoom, k))
  {
    var subs' := subs[id := subs[id].(chan := chan)];
    forall k | k in subs' ensures subs'[k].closed <==> !Registered(subs', byRoom, k) {
      assert Registered(subs', byRoom, k) == Registered(subs, byRoom, k);
    }
  }

  lemma ReadersAreKnown(subs: map<nat, Sub>, byRoom: map<RoomId, set<nat>>, buffer: nat, room: RoomId)
    requires Consistent(subs, byRoom, buffer) && room in byRoom
    ensures forall id :: id in byRoom[room] ==> id in subs && subs[id].room == room && |subs[id].chan| <= buffer
  {}

  function Enlist(byRoom: map<RoomId, set<nat>>, room: RoomId, id: nat): map<RoomId, set<nat>>
  {
    if room == "" then byRoom
    else if room in byRoom then byRoom[room := byRoom[room] + {id}] else byRoom[room := {id}]
  }

  lemma EnlistKeeps(subs: map<nat, Sub>, byRoom: map<RoomId, set<nat>>, buffer: nat, room: RoomId, id: nat)
    requires Consistent(subs, byRoom, buffer) && id !in subs
    ensures var subs' := subs[id := Sub(room, [], room == "", false)];
            && Consistent(subs', Enlist(byRoom, room, id), buffer) && (room != "" ==> Registered(subs', Enlist(byRoom, room, id), id))
            && forall k :: k in subs ==> Registered(subs', Enlist(byRoom, room, id), k) == Registered(subs, byRoom, k)
  {
    var subs', byRoom' := subs[id := Sub(room, [], room == "", false)], Enlist(byRoom, room, id);
    forall k | k in subs' ensures subs'[k].closed <==> !Registered(subs', byRoom', k) {
      if k != id {
        assert Registered(subs', byRoom', k) == Registered(subs, byRoom, k);
      }
    }
  }

  // ---------- what a reader is owed ----------

  /** The events of one room, in the order of the log. */
  function ForRoom(log: seq<RoomEvent>, room: RoomId): seq<RoomEvent>
  {
    if log == [] then []
    else ForRoom(log[..|log|-1], room) + if log[|log|-1].room == room then [log[|log|-1]] else []
  }

  /** Exactly the events of the room. */
  lemma {:induction false} ForRoomIsTheRooms(log: seq<RoomEvent>, room: RoomId, e: RoomEvent)
    ensures multiset(ForRoom(log, room))[e] == if e.room == room then multiset(log)[e] else 0
  {
    if log != [] {
      ForRoomIsTheRooms(log[..|log|-1], room, e);
      assert log == log[..|log|-1] + [log[|log|-1]];
    }
  }

  ghost predicate Rising(log: seq<RoomEvent>)
  {
    forall i, j :: 0 <= i < j < |log| ==> log[i].id < log[j].id
  }

  /** If ids rise along the log they rise here. */
  lemma {:induction false} ForRoomKeepsOrder(log: seq<RoomEvent>, room: RoomId)
    requires Rising(log)
    ensures Rising(ForRoom(log, room))
  {
    if log != [] {
      var n := |log| - 1;
      var before := ForRoom(log[..n], room);
      ForRoomKeepsOrder(log[..n], room);
      forall i | 0 <= i < |before| ensures before[i].id < log[n].id {
        FoundInLog(log[..n], room, before[i]);
        var k :| 0 <= k < n && log[..n][k] == before[i];
        assert log[k].id < log[n].id;
      }
    }
  }

  lemma {:induction false} FoundInLog(log: seq<RoomEvent>, room: RoomId, x: RoomEvent)
    requires x in ForRoom(log, room)
    ensures x in log
  {
    if x != log[|log|-1] {
      FoundInLog(log[..|log|-1], room, x);
    }
  }

  /** What a reader has taken and what still waits for it: all the room's events since it came, or if it is no longer served, the first of them. */
  ghost predicate Holds(sub: Sub, served: bool, since: seq<RoomEvent>, taken: seq<RoomEvent>)
  {
    if served then taken + sub.chan == ForRoom(since, sub.room) else taken + sub.chan <= ForRoom(since, sub.room)
  }

  ghost predicate Delivers(subs: map<nat, Sub>, byRoom: map<RoomId, set<nat>>, log: seq<RoomEvent>, joined: map<nat, nat>, taken: map<nat, seq<RoomEvent>>)
  {
    && joined.Keys == subs.Keys && taken.Keys == subs.Keys
    && forall id :: id in subs ==> joined[id] <= |log| && Holds(subs[id], Registered(subs, byRoom, id), log[joined[id]..], taken[id])
  }

  /** One more event: the served readers of its room with a place left got it, all others of the room are cut off. */
  lemma HoldsOneMore(sub: Sub, sub': Sub, served: bool, served': bool, since: seq<RoomEvent>, taken: seq<RoomEvent>, ev: RoomEvent)
    requires Holds(sub, served, since, taken) && sub'.room == sub.room && (served' ==> served)
    requires sub'.chan == if served' && sub.room == ev.room then sub.chan + [ev] else sub.chan
    ensures Holds(sub', served', since + [ev], taken)
  {
    assert (since + [ev])[..|since + [ev]|-1] == since;
    assert served' && sub.room == ev.room ==> taken + sub'.chan == taken + sub.chan + [ev];
  }

  lemma PublishDelivers(subs: map<nat, Sub>, byRoom: map<RoomId, set<nat>>, subs': map<nat, Sub>, byRoom': map<RoomId, set<nat>>,
                        log: seq<RoomEvent>, joined: map<nat, nat>, taken: map<nat, seq<RoomEvent>>, ev: RoomEvent)
    requires Delivers(subs, byRoom, log, joined, taken) && subs'.Keys == subs.Keys
    requires forall id :: id in subs ==> subs'[id].room == subs[id].room && (Registered(subs', byRoom', id) ==> Registered(subs, byRoom, id))
    requires forall id :: id in subs ==>
               subs'[id].chan == if Registered(subs', byRoom', id) && subs[id].room == ev.room then subs[id].chan + [ev] else subs[id].chan
    ensures Delivers(subs', byRoom', log + [ev], joined, taken)
  {
    hide Holds, Registered;
    forall id | id in subs' ensures joined[id] <= |log + [ev]| && Holds(subs'[id], Registered(subs', byRoom', id), (log + [ev])[joined[id]..], taken[id]) {
      assert (log + [ev])[joined[id]..] == log[joined[id]..] + [ev];
      HoldsOneMore(subs[id], subs'[id], Registered(subs, byRoom, id), Registered(subs', byRoom', id), log[joined[id]..], taken[id], ev);
    }
  }

  lemma SubscribeDelivers(subs: map<nat, Sub>, byRoom: map<RoomId, set<nat>>, byRoom': map<RoomId, set<nat>>,
                          log: seq<RoomEvent>, joined: map<nat, nat>, taken: map<nat, seq<RoomEvent>>, id: nat, room: RoomId)
    requires Delivers(subs, byRoom, log, joined, taken) && id !in subs
    requires forall k :: k in subs ==> Registered(subs[id := Sub(room, [], room == "", false)], byRoom', k) == Registered(subs, byRoom, k)
    ensures Delivers(subs[id := Sub(room, [], room == "", false)], byRoom', log, joined[id := |log|], taken[id := []])
  {
    hide Registered;
    assert log[|log|..] == [];
    assert ForRoom([], room) == [] + [];
  }

  /** Readers that are no longer served still hold what they were given. */
  lemma ClosingDelivers(subs: map<nat, Sub>, byRoom: map<RoomId, set<nat>>, subs': map<nat, Sub>, byRoom': map<RoomId, set<nat>>,
                        log: seq<RoomEvent>, joined: map<nat, nat>, taken: map<nat, seq<RoomEvent>>)
    requires Delivers(subs, byRoom, log, joined, taken) && subs'.Keys == subs.Keys
    requires forall id :: id in subs ==> subs'[id].room == subs[id].room && subs'[id].chan == subs[id].chan
    requires forall id :: id in subs ==> (Registered(subs', byRoom', id) ==> Registered(subs, byRoom, id))
    ensures Delivers(subs', byRoom', log, joined, taken)
  {
    hide Registered, ForRoom;
    forall id | id in subs' ensures Holds(subs'[id], Registered(subs', byRoom', id), log[joined[id]..], taken[id]) {
      assert Holds(subs[id], Registered(subs, byRoom, id), log[joined[id]..], taken[id]);
    }
  }

  lemma ReceiveDelivers(subs: map<nat, Sub>, byRoom: map<RoomId, set<nat>>, subs': map<nat, Sub>,
                        log: seq<RoomEvent>, joined: map<nat, nat>, taken: map<nat, seq<RoomEvent>>, id: nat)
    requires Delivers(subs, byRoom, log, joined, taken) && id in subs && subs[id].chan != []
    requires subs' == subs[id := subs[id].(chan := subs[id].chan[1..])]
    requires forall k :: k in subs ==> (Registered(subs', byRoom, k) <==> Registered(subs, byRoom, k))
    ensures Delivers(subs', byRoom, log, joined, taken[id := taken[id] + [subs[id].chan[0]]])
  {
    hide Registered, ForRoom;
    assert taken[id] + subs[id].chan == taken[id] + [subs[id].chan[0]] + subs[id].chan[1..];
    forall k | k in subs' ensures Holds(subs'[k], Registered(subs', byRoom, k), log[joined[k]..], taken[id := taken[id] + [subs[id].chan[0]]][k]) {
      assert Holds(subs[k], Registered(subs, byRoom, k), log[joined[k]..], taken[k]);
    }
  }

  /** `subs` are all subscriptions handed out; `byRoom` those the hub still serves. */
  class Hub {
    const buffer: nat
    var nextSubID: nat
    var subs: map<nat, Sub>
    var byRoom: map<RoomId, set<nat>>

    /** All that was published, where in it each reader came, and what each reader has taken from its channel. */
    ghost var log: seq<RoomEvent>
    ghost var joined: map<nat, nat>
    ghost var taken: map<nat, seq<RoomEvent>>

    ghost predicate Straight()
      reads this
    {
      buffer > 0 && (forall id :: id in subs ==> id <= nextSubID) && Consistent(subs, byRoom, buffer)
    }

    ghost predicate Valid()
      reads this
    {
      Straight() && Delivers(subs, byRoom, log, joined, taken)
    }

    predicate Serves(id: nat)
      reads this
      requires id in subs
    {
      Registered(subs, byRoom, id)
    }

    constructor (buffer: int)
      ensures Valid() && subs == map[] && byRoom == map[] && log == []
      ensures this.buffer == if buffer <= 0 then 64 else buffer
    {
      this.buffer := if buffer <= 0 then 64 else buffer;
      nextSubID, subs, byRoom := 0, map[], map[];
      log, joined, taken := [], map[], map[];
    }

    /** A stream for no room is closed from the start. */
    method Subscribe(room: RoomId) returns (id: nat)
      requires Valid()
      modifies this
      ensures Valid() && id !in old(subs)
      ensures subs == old(subs)[id := Sub(room, [], room == "", false)]
      ensures room != "" ==> Serves(id)
      ensures log == old(log) && joined == old(joined)[id := |log|] && taken == old(taken)[id := []]
    {
      nextSubID := nextSubID + 1;
      id := nextSubID;
      EnlistKeeps(subs, byRoom, buffer, room, id);
      SubscribeDelivers(subs, byRoom, Enlist(byRoom, room, id), log, joined, taken, id, room);
      hide Consistent, Delivers, Registered;
      subs := subs[id := Sub(room, [], room == "", false)];
      if room != "" {
        if room in byRoom {
          byRoom := byRoom[room := byRoom[room] + {id}];
        } else {
          byRoom := byRoom[room := {id}];
        }
      }
      joined, taken := joined[id := |log|], taken[id := []];
    }

    /**
     * Every served reader of the room gets the event if its buffer has a place, and is cut off, marked
     * as dropped, if not; nobody else notices.
     */
    method Publish(ev: RoomEvent)
      requires Valid()
      modifies this
      ensures Valid() && subs.Keys == old(subs.Keys)
      ensures forall id :: id in subs ==>
                subs[id] == if !(old(Serves(id)) && old(subs)[id].room == ev.room) then old(subs)[id]
                            else if |old(subs)[id].chan| < buffer then Sub(ev.room, old(subs)[id].chan + [ev], false, false)
                            else Sub(ev.room, old(subs)[id].chan, true, true)
      ensures forall id :: id in subs ==> (Serves(id) <==> old(Serves(id)) && !(subs[id].room == ev.room && |old(subs)[id].chan| == buffer))
      ensures log == old(log) + [ev] && joined == old(joined) && taken == old(taken)
    {
      hide Consistent, Delivers, Registered;
      ghost var subs0, byRoom0 := subs, byRoom;
      ChannelsFit(subs, byRoom, buffer);
      Offer(ev);
      log := log + [ev];
      PublishDelivers(subs0, byRoom0, subs, byRoom, old(log), joined, taken, ev);
    }

    /** Both phases. */
    method Offer(ev: RoomEvent)
      requires Straight()
      modifies this`subs, this`byRoom
      ensures Straight() && subs.Keys == old(subs.Keys)
      ensures forall id :: id in subs ==>
                subs[id] == if !(old(Serves(id)) && old(subs)[id].room == ev.room) then old(subs)[id]
                            else if |old(subs)[id].chan| < buffer then Sub(ev.room, old(subs)[id].chan + [ev], false, false)
                            else Sub(ev.room, old(subs)[id].chan, true, true)
      ensures forall id :: id in subs ==> (Serves(id) <==> old(Serves(id)) && !(subs[id].room == ev.room && |old(subs)[id].chan| == buffer))
    {
      if ev.room !in byRoom {
        NobodyUnlisted(subs, byRoom, buffer, ev.room);
        return;
      }
      ReadersAreServed(subs, byRoom, buffer, ev.room);
      hide Consistent, Registered;
      var toDrop := SendAll(ev);
      DropAll(ev.room, toDrop);
    }

    /** First phase: a non-blocking send to each reader, collecting those with a full buffer. */
    method SendAll(ev: RoomEvent) returns (toDrop: set<nat>)
      requires Straight() && ev.room in byRoom
      modifies this`subs
      ensures Straight() && subs.Keys == old(subs.Keys)
      ensures toDrop == set id | id in byRoom[ev.room] && |old(subs)[id].chan| == buffer
      ensures forall id :: id in subs ==> (Serves(id) <==> old(Serves(id)))
      ensures forall id :: id in subs ==>
                subs[id] == if id in byRoom[ev.room] - toDrop then old(subs)[id].(chan := old(subs)[id].chan + [ev]) else old(subs)[id]
    {
      toDrop := {};
      var todo := byRoom[ev.room];
      ReadersAreKnown(subs, byRoom, buffer, ev.room);
      hide Consistent;
      while todo != {}
        invariant todo <= byRoom[ev.room] && subs.Keys == old(subs.Keys) && Straight()
        invariant toDrop == set id | id in byRoom[ev.room] - todo && |old(subs)[id].chan| == buffer
        invariant forall id :: id in subs ==>
                    subs[id] == if id in byRoom[ev.room] - todo - toDrop then old(subs)[id].(chan := old(subs)[id].chan + [ev]) else old(subs)[id]
      {
        var id :| id in todo;
        if |subs[id].chan| < buffer {
          ChannelsDoNotMatter(subs, byRoom, buffer, id, subs[id].chan + [ev]);
          subs := subs[id := subs[id].(chan := subs[id].chan + [ev])];
        } else {
          toDrop := toDrop + {id};
        }
        todo := todo - {id};
      }
    }

    /** Second phase: the slow readers are marked, removed and closed. */
    method DropAll(room: RoomId, toDrop: set<nat>)
      requires Straight() && room in byRoom && toDrop <= byRoom[room]
      modifies this`subs, this`byRoom
      ensures Straight() && subs.Keys == old(subs.Keys)
      ensures forall id :: id in subs ==> subs[id] == if id in toDrop then old(subs)[id].(closed := true, dropped := true) else old(subs)[id]
      ensures forall id :: id in subs ==> (Serves(id) <==> old(Serves(id)) && id !in toDrop)
    {
      var todo := toDrop;
      while todo != {}
        invariant todo <= toDrop && byRoom == old(byRoom)
        invariant subs.Keys == old(subs.Keys)
        invariant forall id :: id in subs ==>
                    subs[id] == if id in toDrop - todo then old(subs)[id].(closed := true, dropped := true) else old(subs)[id]
      {
        var id :| id in todo;
        subs := subs[id := subs[id].(closed := true, dropped := true)];
        todo := todo - {id};
      }
      UnlistKeeps(old(subs), byRoom, buffer, room, toDrop, subs);
      byRoom := Unlist(byRoom, room, toDrop);
    }

    /** A reader takes the next event from its channel; when there is none it learns whether the channel is closed. */
    method Receive(id: nat) returns (ev: Option<RoomEvent>, over: bool)
      requires Valid() && id in subs
      modifies this`subs, this`taken
      ensures Valid() && subs.Keys == old(subs.Keys)
      ensures forall k :: k in subs && k != id ==> subs[k] == old(subs)[k] && taken[k] == old(taken)[k]
      ensures ev.Some? <==> old(subs)[id].chan != []
      ensures ev.Some? ==> old(subs)[id].chan == [ev.value] + subs[id].chan && subs[id] == old(subs)[id].(chan := subs[id].chan)
                           && taken[id] == old(taken)[id] + [ev.value]
      ensures ev.None? ==> subs == old(subs) && taken == old(taken)
      ensures over <==> ev.None? && subs[id].closed
    {
      hide Consistent, Registered, Delivers;
      var sub := subs[id];
      if sub.chan == [] {
        return None, sub.closed;
      }
      ev, over := Some(sub.chan[0]), false;
      ChannelsFit(subs, byRoom, buffer);
      ChannelsDoNotMatter(subs, byRoom, buffer, id, sub.chan[1..]);
      assert id in taken by { TakenByAll(subs, byRoom, log, joined, taken); }
      ReceiveDelivers(subs, byRoom, subs[id := sub.(chan := sub.chan[1..])], log, joined, taken, id);
      subs := subs[id := sub.(chan := sub.chan[1..])];
      taken := taken[id := taken[id] + [ev.value]];
    }

    /** Closing a stream twice, or after it was dropped, changes nothing. */
    method Unsubscribe(room: RoomId, id: nat)
      requires Valid()
      modifies this`subs, this`byRoom
      ensures Valid() && subs.Keys == old(subs.Keys)
      ensures forall k :: k in subs ==> subs[k] == if k == id && old(Serves(k)) && subs[k].room == room then old(subs)[k].(closed := true) else old(subs)[k]
      ensures forall k :: k in subs ==> (Serves(k) <==> old(Serves(k)) && !(k == id && subs[k].room == room))
    {
      hide Consistent, Registered, Delivers;
      ghost var subs0, byRoom0 := subs, byRoom;
      Remove(room, id);
      ClosingDelivers(subs0, byRoom0, subs, byRoom, log, joined, taken);
    }

    method Remove(room: RoomId, id: nat)
      requires Straight()
      modifies this`subs, this`byRoom
      ensures Straight() && subs.Keys == old(subs.Keys)
      ensures forall k :: k in subs ==> subs[k] == if k == id && old(Serves(k)) && subs[k].room == room then old(subs)[k].(closed := true) else old(subs)[k]
      ensures forall k :: k in subs ==> (Serves(k) <==> old(Serves(k)) && !(k == id && subs[k].room == room))
    {
      if room in byRoom && id in byRoom[room] {
        subs := subs[id := subs[id].(closed := true)];
        UnlistKeeps(old(subs), byRoom, buffer, room, {id}, subs);
        byRoom := Unlist(byRoom, room, {id});
      }
    }

    method SubscriberCount(room: RoomId) returns (n: nat)
      requires Valid()
      ensures n == |set id | id in subs && Serves(id) && subs[id].room == room|
    {
      if room in byRoom {
        ReadersAreServed(subs, byRoom, buffer, room);
      } else {
        NobodyUnlisted(subs, byRoom, buffer, room);
      }
      hide Consistent, Delivers, Registered;
      var served := if room in byRoom then byRoom[room] else {};
      assert served == set id | id in subs && Serves(id) && subs[id].room == room;
      n := |served|;
    }
  }

  lemma ChannelsFit(subs: map<nat, Sub>, byRoom: map<RoomId, set<nat>>, buffer: nat)
    requires Consistent(subs, byRoom, buffer)
    ensures forall id :: id in subs ==> |subs[id].chan| <= buffer
  {}

  lemma TakenByAll(subs: map<nat, Sub>, byRoom: map<RoomId, set<nat>>, log: seq<RoomEvent>, joined: map<nat, nat>, taken: map<nat, seq<RoomEvent>>)
    requires Delivers(subs, byRoom, log, joined, taken)
    ensures taken.Keys == subs.Keys == joined.Keys
  {}

  lemma NobodyUnlisted(subs: map<nat, Sub>, byRoom: map<RoomId, set<nat>>, buffer: nat, room: RoomId)
    requires Consistent(subs, byRoom, buffer) && room !in byRoom
    ensures forall id :: id in subs && Registered(subs, byRoom, id) ==> subs[id].room != room
  {}

  lemma ReadersAreServed(subs: map<nat, Sub>, byRoom: map<RoomId, set<nat>>, buffer: nat, room: RoomId)
    requires Consistent(subs, byRoom, buffer) && room in byRoom
    ensures forall id :: id in subs ==> (id in byRoom[room] <==> Registered(subs, byRoom, id) && subs[id].room == room)
    ensures forall id :: id in byRoom[room] ==> id in subs && subs[id] == Sub(room, subs[id].chan, false, false) && |subs[id].chan| <= buffer
  {}

  /** Whatever was published, subscribed, taken and closed: a served reader has exactly its room's events since it came, in order, and a reader cut off the first of them. */
  lemma ReadersMissNothing(hub: Hub, id: nat)
    requires hub.Valid() && id in hub.subs
    ensures hub.joined[id] <= |hub.log|
    ensures var all, got := ForRoom(hub.log[hub.joined[id]..], hub.subs[id].room), hub.taken[id] + hub.subs[id].chan;
            if hub.Serves(id) then got == all && !hub.subs[id].closed else got <= all && hub.subs[id].closed
  {
    assert Holds(hub.subs[id], hub.Serves(id), hub.log[hub.joined[id]..], hub.taken[id]);
  }
}
