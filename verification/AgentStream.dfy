/**
 * The agent stream between the server and one bridge daemon: at-least-once delivery across two
 * processes, with lost requests and replies, dropped connections, crashes of the bridge at any
 * point, saves that reach the disk late or out of order, and any number of overlapping drains.
 */
module AgentStream {
  import opened Prelude

  type RoomId = nat

  /** The bridge dedupes wakes by room and turn; the actor in the key is always its own agent. */
  datatype Key = Key(room: RoomId, turn: nat)

  /** A delivery of this agent.  Its sequence number is its position plus one. */
  datatype Row = Row(room: RoomId, turnReady: bool, turn: Option<nat>, acked: bool, expiresAt: Time)
  {
    function WakeKey(): Option<Key>
    {
      if turnReady && turn.Some? then Some(Key(room, turn.value)) else None
    }
  }

  /**
   * A file in the wake queue.  Its name decides what it holds: delivery ids are unique, and a
   * recovery file is named after its room and turn.
   */
  datatype File = DeliveryFile(id: nat, of: RoomId, turn: Option<nat>) | RecoveryFile(recovered: Key)
  {
    function WakeKey(): Option<Key>
    {
      if RecoveryFile? then Some(recovered) else if turn.Some? then Some(Key(of, turn.value)) else None
    }

    function Room(): RoomId { if DeliveryFile? then of else recovered.room }
  }

  /** state.json: the resume cursor and the wakes known to be completed. */
  datatype Persist = Persist(cursor: Option<nat>, completed: seq<Key>)

  /** An open stream: how far the server has sent, and what the bridge has not read yet. */
  datatype Conn = Conn(lastSent: nat, wire: seq<nat>)

  /**
   * Where the stream handler is; it works on one event at a time.  A recovery waits until the state it
   * saved is on disk, asks the server for a listing, then works through it: it is at entry `next`, and
   * `writing` says that the checks before that entry's file are done.
   */
  datatype Handler =
    | Idle
    | Checking(row: nat) | Enqueuing(row: nat) | Writing(row: nat)
    | Ending(row: nat)
    | Acking(row: nat) | Saving(row: nat)
    | Recording(saved: Persist)
    | Listing
    | Recovering(ended: set<RoomId>, actionable: seq<Key>, next: nat, writing: bool)

  datatype Drain = Trying(file: File) | Accepted(file: File) | Removed(file: File)

  /**
   * `answered` are the wakes whose turn has been spoken, as the server knows.  `saving` are the saves
   * that have not reached the disk; they may in any order.  `accepted` and `owed` are history: keys taken by the hook, and keys a recovery dropped that no recovery has finished since.
   */
  datatype Sys = Sys(
    rows: seq<Row>, answered: set<Key>, now: Time,
    conn: Option<Conn>,
    mem: Persist, disk: Persist, saving: multiset<Persist>,
    queue: set<File>,
    handler: Handler, drains: map<nat, Drain>,
    accepted: set<Key>, owed: set<Key>)

  // ---------- the server's side ----------

  predicate Pending(rows: seq<Row>, j: nat, now: Time)
  {
    j < |rows| && !rows[j].acked && rows[j].expiresAt > now
  }

  /** The first `limit` pending deliveries at or after position `from`. */
  function ListPending(rows: seq<Row>, from: nat, now: Time, limit: nat): (out: seq<nat>)
    decreases |rows| - from
  {
    if limit == 0 || from >= |rows| then []
    else if Pending(rows, from, now) then [from] + ListPending(rows, from + 1, now, limit - 1)
    else ListPending(rows, from + 1, now, limit)
  }

  datatype Resume = Fresh | Resumed(after: nat) | ReplayRequired

  function Resolve(rows: seq<Row>, now: Time, cursor: Option<nat>): Resume
  {
    if cursor.None? then Fresh
    else if cursor.value >= |rows| then ReplayRequired
    else if rows[cursor.value].expiresAt <= now then ReplayRequired
    else if !rows[cursor.value].acked then ReplayRequired
    else Resumed(cursor.value + 1)
  }

  /** The server has told this agent, after the wake, that its room ended. */
  predicate Ended(rows: seq<Row>, k: Key)
  {
    exists i, j :: 0 <= i < j < |rows| && rows[i].WakeKey() == Some(k) && !rows[j].turnReady && rows[j].room == k.room
  }

  /** The last the server has told this agent about the room is that it ended. */
  predicate Over(rows: seq<Row>, r: RoomId)
  {
    exists j :: 0 <= j < |rows| && !rows[j].turnReady && rows[j].room == r
      && forall i :: j < i < |rows| && rows[i].turnReady ==> rows[i].room != r
  }

  /** The server has committed this wake. */
  predicate Known(rows: seq<Row>, k: Key)
  {
    exists i :: 0 <= i < |rows| && rows[i].WakeKey() == Some(k)
  }

  /**
   * A listing of actionable rooms: only rooms that are over are listed as ended, each room is listed
   * once, and every wake that waits for its answer and whose room has not ended is listed.
   */
  predicate ValidListing(rows: seq<Row>, answered: set<Key>, ended: set<RoomId>, actionable: seq<Key>)
  {
    && (forall r :: r in ended ==> Over(rows, r))
    && (forall i, j :: 0 <= i < j < |actionable| ==> actionable[i].room != actionable[j].room)
    && (forall k :: k in actionable ==> Known(rows, k))
    && (forall i :: 0 <= i < |rows| && rows[i].WakeKey().Some? ==> Asked(rows, answered, actionable, rows[i].WakeKey().value))
  }

  /** The listing asks for the wake, unless it is answered or its room has ended since. */
  predicate Asked(rows: seq<Row>, answered: set<Key>, actionable: seq<Key>, k: Key)
  {
    Ended(rows, k) || k in answered || k in actionable
  }

  // ---------- the bridge's lists ----------

  const KEEP := 64

  function Without(keys: seq<Key>, k: Key): seq<Key>
  {
    if keys == [] then [] else (if keys[0] == k then [] else [keys[0]]) + Without(keys[1..], k)
  }

  /** Newest first, without duplicates, at most 64. */
  function Remember(keys: seq<Key>, k: Key): seq<Key>
  {
    var all := [k] + Without(keys, k);
    if |all| > KEEP then all[..KEEP] else all
  }

  function ForgetRoom(keys: seq<Key>, r: RoomId): seq<Key>
  {
    if keys == [] then [] else (if keys[0].room == r then [] else [keys[0]]) + ForgetRoom(keys[1..], r)
  }

  predicate Queued(queue: set<File>, k: Key)
  {
    exists f :: f in queue && f.WakeKey() == Some(k)
  }

  function FileOf(rows: seq<Row>, i: nat): File
    requires i < |rows|
  {
    DeliveryFile(i, rows[i].room, if rows[i].turnReady then rows[i].turn else None)
  }

  /** enqueueWakeJob writes nothing when the wake is completed, already queued, or its file exists. */
  predicate AlreadyHandled(completed: seq<Key>, queue: set<File>, f: File)
  {
    || (f.WakeKey().Some? && f.WakeKey().value in completed)
    || (f.WakeKey().Some? && Queued(queue, f.WakeKey().value))
    || f in queue
  }

  // ---------- steps ----------

  datatype Event =
    | Commit(row: Row)
    | Answer(key: Key)
    | Tick(later: Time)
    | Connect
    | SendBatch(limit: nat)
    | CutConn
    | Receive
    | Check | Enqueue | Write
    | DropFile(dead: File) | EndRoom
    | ServerAck | SetCursor
    | RecoverSave
    | RecoverBegin(ended: set<RoomId>, actionable: seq<Key>)
    | RecoverForget(room: RoomId) | RecoverDrop(stale: File) | RecoverCheck | RecoverWrite | RecoverDone
    | FailHandler
    | Pick(drain: nat, file: File) | HookAccepts(drain: nat) | HookFails(drain: nat) | Remove(drain: nat) | Complete(drain: nat)
    | Snapshot
    | Land(saved: Persist)
    | Crash

  function Put(s: Sys, f: File): Sys
  {
    s.(queue := s.queue + {f})
  }

  /** The server, the network and the clock. */
  function ApplyServer(s: Sys, e: Event): Sys
  {
    match e
    case Commit(row) => s.(rows := s.rows + [row.(acked := false)])
    case Answer(k) => if Known(s.rows, k) then s.(answered := s.answered + {k}) else s
    case Tick(later) => if later >= s.now then s.(now := later) else s
    case SendBatch(limit) =>
      if s.conn.None? then s
      else
        var batch := ListPending(s.rows, s.conn.value.lastSent, s.now, limit);
        if batch == [] then s
        else s.(conn := Some(Conn(batch[|batch|-1] + 1, s.conn.value.wire + batch)))
    case CutConn => s.(conn := None)
    case _ => s
  }

  /** A recovery drops jobs of rooms that ended, and of the room whose entry it is at. */
  predicate MayDrop(h: Handler, f: File)
  {
    h.Recovering? &&
    (f.Room() in h.ended || (!h.writing && h.next < |h.actionable| && f.Room() == h.actionable[h.next].room))
  }

  /** The stream handler of the bridge. */
  function ApplyHandler(s: Sys, e: Event): Sys
  {
    match e
    case Connect =>
      if s.handler != Idle || s.conn.Some? then s
      else (
        match Resolve(s.rows, s.now, s.mem.cursor)
        case Fresh => s.(conn := Some(Conn(0, [])))
        case Resumed(after) => s.(conn := Some(Conn(after, [])))
        case ReplayRequired => s.(handler := Recording(s.mem), saving := s.saving + multiset{s.mem}))
    case Receive =>
      if s.handler != Idle || s.conn.None? || s.conn.value.wire == [] then s
      else
        var i := s.conn.value.wire[0];
        s.(conn := Some(Conn(s.conn.value.lastSent, s.conn.value.wire[1..])),
           handler := if i < |s.rows| && s.rows[i].turnReady then Checking(i) else Ending(i))
    case Check =>
      if !s.handler.Checking? || s.handler.row >= |s.rows| then s
      else
        var k := s.rows[s.handler.row].WakeKey();
        s.(handler := if k.Some? && k.value in s.mem.completed then Acking(s.handler.row) else Enqueuing(s.handler.row))
    case Enqueue =>
      if !s.handler.Enqueuing? || s.handler.row >= |s.rows| then s
      else if AlreadyHandled(s.mem.completed, s.queue, FileOf(s.rows, s.handler.row)) then s.(handler := Acking(s.handler.row))
      else s.(handler := Writing(s.handler.row))
    case Write =>
      if !s.handler.Writing? || s.handler.row >= |s.rows| then s
      else Put(s, FileOf(s.rows, s.handler.row)).(handler := Acking(s.handler.row))
    case DropFile(f) =>
      if !s.handler.Ending? || s.handler.row >= |s.rows| || f.Room() != s.rows[s.handler.row].room then s
      else s.(queue := s.queue - {f})
    case EndRoom =>
      if !s.handler.Ending? || s.handler.row >= |s.rows| then s
      else s.(mem := s.mem.(completed := ForgetRoom(s.mem.completed, s.rows[s.handler.row].room)), handler := Acking(s.handler.row))
    case ServerAck =>
      if !s.handler.Acking? || s.handler.row >= |s.rows| then s
      else s.(rows := s.rows[s.handler.row := s.rows[s.handler.row].(acked := true)], handler := Saving(s.handler.row))
    case SetCursor =>
      if !s.handler.Saving? then s
      else s.(mem := s.mem.(cursor := Some(s.handler.row)), handler := Idle)
    case RecoverSave =>
      // The recovery's own save has landed; the listing is asked for.
      if !s.handler.Recording? || s.handler.saved !in s.saving then s
      else s.(disk := s.handler.saved, saving := s.saving - multiset{s.handler.saved}, handler := Listing)
    case RecoverBegin(ended, actionable) =>
      if s.handler != Listing || !ValidListing(s.rows, s.answered, ended, actionable) then s
      else s.(handler := Recovering(ended, actionable, 0, false))
    case RecoverForget(r) =>
      if !s.handler.Recovering? || r !in s.handler.ended then s
      else s.(mem := s.mem.(completed := ForgetRoom(s.mem.completed, r)))
    case RecoverDrop(f) =>
      if !MayDrop(s.handler, f) then s
      else s.(queue := s.queue - {f},
              owed := if f in s.queue && f.WakeKey().Some? then s.owed + {f.WakeKey().value} else s.owed)
    case RecoverCheck =>
      if !s.handler.Recovering? || s.handler.writing || s.handler.next >= |s.handler.actionable| then s
      else if AlreadyHandled(s.mem.completed, s.queue, RecoveryFile(s.handler.actionable[s.handler.next]))
      then s.(handler := s.handler.(next := s.handler.next + 1))
      else s.(handler := s.handler.(writing := true))
    case RecoverWrite =>
      if !s.handler.Recovering? || !s.handler.writing || s.handler.next >= |s.handler.actionable| then s
      else Put(s, RecoveryFile(s.handler.actionable[s.handler.next])).(handler := s.handler.(next := s.handler.next + 1, writing := false))
    case RecoverDone =>
      if !s.handler.Recovering? || s.handler.next < |s.handler.actionable| then s
      else s.(mem := s.mem.(cursor := None), handler := Idle, owed := {})
    case FailHandler => if s.handler == Idle then s else s.(handler := Idle, conn := None)
    case _ => s
  }

  /** Drains of the wake queue, one job each; several may overlap. */
  function ApplyDrain(s: Sys, e: Event): Sys
  {
    match e
    case Pick(d, f) => if d in s.drains || f !in s.queue then s else s.(drains := s.drains[d := Trying(f)])
    case HookAccepts(d) =>
      if d !in s.drains || !s.drains[d].Trying? then s
      else
        var f := s.drains[d].file;
        s.(drains := s.drains[d := Accepted(f)],
           accepted := if f.WakeKey().Some? then s.accepted + {f.WakeKey().value} else s.accepted)
    case HookFails(d) =>
      // The hook refused, or its reply was lost; either way the job is written back.
      if d !in s.drains || s.drains[d].Removed? then s
      else Put(s, s.drains[d].file).(drains := s.drains - {d})
    case Remove(d) =>
      if d !in s.drains || !s.drains[d].Accepted? then s
      else s.(queue := s.queue - {s.drains[d].file}, drains := s.drains[d := Removed(s.drains[d].file)])
    case Complete(d) =>
      if d !in s.drains || !s.drains[d].Removed? then s
      else
        var k := s.drains[d].file.WakeKey();
        s.(drains := s.drains - {d},
           mem := if k.Some? then s.mem.(completed := Remember(s.mem.completed, k.value)) else s.mem)
    case _ => s
  }

  /** Saving state.json, and losing everything that is not on disk. */
  function ApplyDisk(s: Sys, e: Event): Sys
  {
    match e
    case Snapshot => s.(saving := s.saving + multiset{s.mem})
    case Land(p) => if p in s.saving then s.(disk := p, saving := s.saving - multiset{p}) else s
    case Crash => s.(conn := None, mem := s.disk, saving := multiset{}, handler := Idle, drains := map[])
    case _ => s
  }

  predicate ServerEvent(e: Event) { e.Commit? || e.Answer? || e.Tick? || e.SendBatch? || e.CutConn? }
  predicate DrainEvent(e: Event) { e.Pick? || e.HookAccepts? || e.HookFails? || e.Remove? || e.Complete? }
  predicate DiskEvent(e: Event) { e.Snapshot? || e.Land? || e.Crash? }

  function Apply(s: Sys, e: Event): Sys
  {
    if ServerEvent(e) then ApplyServer(s, e)
    else if DrainEvent(e) then ApplyDrain(s, e)
    else if DiskEvent(e) then ApplyDisk(s, e)
    else ApplyHandler(s, e)
  }

  function Run(s: Sys, es: seq<Event>): Sys
  {
    if es == [] then s else Apply(Run(s, es[..|es|-1]), es[|es|-1])
  }

  /** A new bridge on an empty disk, against a server that has acknowledged nothing yet. */
  ghost predicate Initial(s: Sys)
  {
    && (forall j :: 0 <= j < |s.rows| ==> !s.rows[j].acked)
    && s.conn.None? && s.mem == s.disk == Persist(None, []) && s.saving == multiset{} && s.queue == {}
    && s.handler == Idle && s.drains == map[] && s.accepted == {} && s.owed == {}
  }
}
