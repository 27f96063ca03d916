/**
 * The limiters as they run: slices that share a backing array with the map they came from.  Pruning
 * overwrites that array; only a later store tells the map the new length.
 */
module InPlaceLimiter {
  import opened Prelude
  import opened Limiter

  /** A slice header: a backing array and a length.  A nil slice has no array. */
  datatype Slice = Nil | Slice(buf: array<Time>, len: nat)

  ghost function Bufs(s: Slice): set<object>
  {
    if s.Nil? then {} else {s.buf}
  }

  ghost predicate Fits(s: Slice)
  {
    s.Slice? ==> s.len <= s.buf.Length
  }

  ghost function View(s: Slice): seq<Time>
    requires Fits(s)
    reads Bufs(s)
  {
    if s.Nil? then [] else s.buf[..s.len]
  }

  /** Keeps the recent times at the front of the same array; the caller's own header still has the old length. */
  method PruneTimeWindow(times: Slice, keepAfter: Time) returns (kept: Slice)
    requires Fits(times)
    modifies Bufs(times)
    ensures Fits(kept) && View(kept) == Prune(old(View(times)), keepAfter)
    ensures View(times) == Compacted(old(View(times)), keepAfter)
    ensures kept.Nil? || (times.Slice? && kept.buf == times.buf)
  {
    if times.Nil? || times.len == 0 {
      return Nil;
    }
    var buf, n := times.buf, 0;
    ghost var w := View(times);
    for i := 0 to times.len
      invariant n <= i
      invariant buf[..n] == Prune(w[..i], keepAfter)
      invariant forall j :: n <= j < times.len ==> buf[j] == w[j]
    {
      assert w[..i + 1][..i] == w[..i];
      if buf[i] > keepAfter {
        buf[n] := buf[i];
        n := n + 1;
      }
    }
    assert w[..times.len] == w;
    kept := Slice(buf, n);
    assert View(times) == buf[..n] + w[n..];
  }

  /** Writes behind the end while there is capacity, and moves to a new array otherwise. */
  method Append(s: Slice, t: Time) returns (r: Slice)
    requires Fits(s)
    modifies Bufs(s)
    ensures r.Slice? && Fits(r) && View(r) == old(View(s)) + [t]
    ensures fresh(r.buf) || (s.Slice? && r.buf == s.buf)
  {
    if s.Slice? && s.len < s.buf.Length {
      s.buf[s.len] := t;
      return Slice(s.buf, s.len + 1);
    }
    var n := if s.Nil? then 0 else s.len;
    var buf := new Time[2 * n + 1];
    for i := 0 to n
      invariant s.Slice? ==> s.buf[..] == old(s.buf[..])
      invariant forall j :: 0 <= j < i ==> buf[j] == s.buf[j]
    {
      buf[i] := s.buf[i];
    }
    buf[n] := t;
    r := Slice(buf, n + 1);
    assert View(r)[..n] == old(View(s));
  }

  ghost predicate Separate(m: map<Id, Slice>)
  {
    && (forall k :: k in m ==> Fits(m[k]))
    && (forall j, k :: j in m && k in m && j != k ==> Bufs(m[j]) !! Bufs(m[k]))
  }

  ghost function AllBufs(m: map<Id, Slice>): set<object>
  {
    set k, o | k in m && o in Bufs(m[k]) :: o
  }

  ghost function Views(m: map<Id, Slice>): map<Id, seq<Time>>
    requires Separate(m)
    reads AllBufs(m)
  {
    map k | k in m :: View(m[k])
  }

  function Lookup(m: map<Id, Slice>, k: Id): Slice
  {
    if k in m then m[k] else Nil
  }

  /** The lists of the other keys live in other arrays. */
  lemma OthersApart(m: map<Id, Slice>, key: Id)
    requires Separate(m)
    ensures Separate(m - {key}) && Views(m - {key}) == Views(m) - {key}
    ensures Bufs(Lookup(m, key)) !! AllBufs(m - {key}) && AllBufs(m) == AllBufs(m - {key}) + Bufs(Lookup(m, key))
  {
    forall o | o in AllBufs(m) ensures o in AllBufs(m - {key}) + Bufs(Lookup(m, key)) {
      var k :| k in m && o in Bufs(m[k]);
      assert k != key ==> k in m - {key} && o in Bufs((m - {key})[k]);
    }
    forall o | o in AllBufs(m - {key}) ensures o in AllBufs(m) && o !in Bufs(Lookup(m, key)) {
      var k :| k in m - {key} && o in Bufs((m - {key})[k]);
      assert k in m && o in Bufs(m[k]);
    }
  }

  lemma StoreKeeps(m: map<Id, Slice>, key: Id, s: Slice)
    requires Separate(m - {key}) && Fits(s) && Bufs(s) !! AllBufs(m - {key})
    ensures Separate(m[key := s]) && Views(m[key := s]) == Views(m - {key})[key := View(s)]
    ensures AllBufs(m[key := s]) == AllBufs(m - {key}) + Bufs(s)
  {
    var m' := m[key := s];
    assert m' - {key} == m - {key};
    forall k | k in m' ensures Fits(m'[k]) {
      assert k != key ==> k in m - {key} && m'[k] == (m - {key})[k];
    }
    forall j, k | j in m' && k in m' && j != k ensures Bufs(m'[j]) !! Bufs(m'[k]) {
      assert j != key ==> j in m - {key} && m'[j] == (m - {key})[j] && Bufs(m'[j]) <= AllBufs(m - {key});
      assert k != key ==> k in m - {key} && m'[k] == (m - {key})[k] && Bufs(m'[k]) <= AllBufs(m - {key});
    }
    assert Separate(m');
    OthersApart(m', key);
    forall k | k in m' && k != key ensures View(m'[k]) == Views(m - {key})[k] {
      assert k in m - {key} && (m - {key})[k] == m'[k];
    }
  }

  lemma ViewOfKey(m: map<Id, Slice>, key: Id)
    requires Separate(m)
    ensures Fits(Lookup(m, key)) && View(Lookup(m, key)) == Window(Views(m), key)
    ensures Views(m).Keys == m.Keys
  {}

  lemma ViewsSplit(m: map<Id, Slice>, key: Id)
    requires Separate(m) && key in m
    ensures Separate(m - {key}) && Views(m) == Views(m - {key})[key := View(m[key])]
  {}

  /** Pruning one list changes what the map shows for that key, and for no other. */
  method PruneWindow(m: map<Id, Slice>, key: Id, now: Time) returns (kept: Slice)
    requires Separate(m)
    modifies Bufs(Lookup(m, key))
    ensures Fits(kept) && Bufs(kept) <= Bufs(Lookup(m, key))
    ensures View(kept) == Prune(Window(old(Views(m)), key), now - MINUTE)
    ensures Views(m) == Touch(old(Views(m)), key, now, RefusedUnstored)
  {
    hide Prune, Compacted, Views, Separate;
    OthersApart(m, key);
    ViewOfKey(m, key);
    ghost var before, rest := Views(m), m - {key};
    ghost var restViews := Views(rest);
    kept := PruneTimeWindow(Lookup(m, key), now - MINUTE);
    NothingToPrune(now - MINUTE);
    assert Views(rest) == restViews;
    if key in m {
      ViewsSplit(m, key);
      assert before[key := Compacted(before[key], now - MINUTE)] == restViews[key := Compacted(before[key], now - MINUTE)];
    } else {
      assert rest == m;
    }
  }

  lemma NothingToPrune(keepAfter: Time)
    ensures Prune([], keepAfter) == [] && Compacted([], keepAfter) == []
  {}

  /** Storing the shortened list. */
  lemma StoringKeeps(m: map<Id, Slice>, key: Id, kept: Slice)
    requires Separate(m) && Fits(kept) && Bufs(kept) <= Bufs(Lookup(m, key))
    ensures Separate(m[key := kept]) && AllBufs(m[key := kept]) <= AllBufs(m)
    ensures Views(m[key := kept]) == Views(m)[key := View(kept)]
  {
    hide Views, AllBufs, Separate;
    OthersApart(m, key);
    StoreKeeps(m, key, kept);
    assert Views(m)[key := View(kept)] == (Views(m) - {key})[key := View(kept)];
  }

  /** Appending to the shortened list, and storing the result. */
  method AdmitInto(m: map<Id, Slice>, key: Id, kept: Slice, now: Time, ghost others: set<object>) returns (m': map<Id, Slice>)
    requires Separate(m) && Fits(kept) && Bufs(kept) <= Bufs(Lookup(m, key)) && AllBufs(m) !! others
    modifies Bufs(kept)
    ensures Separate(m') && AllBufs(m') !! others
    ensures Views(m') == old(Views(m))[key := old(View(kept)) + [now]]
  {
    hide Views, Separate;
    OthersApart(m, key);
    ghost var before, rest := Views(m), m - {key};
    ghost var restViews, apart := Views(rest), AllBufs(rest) + others;
    assert Bufs(kept) !! apart;
    var r := Append(kept, now);
    assert Bufs(r) !! apart;
    assert Views(rest) == restViews;
    StoreKeeps(m, key, r);
    m' := m[key := r];
    assert before[key := View(r)] == restViews[key := View(r)];
  }

  lemma PrunedThenStored(v: map<Id, seq<Time>>, key: Id, now: Time)
    ensures Touch(v, key, now, RefusedUnstored)[key := Prune(Window(v, key), now - MINUTE)] == Touch(v, key, now, Refused)
    ensures Touch(v, key, now, RefusedUnstored)[key := Prune(Window(v, key), now - MINUTE) + [now]] == Touch(v, key, now, Admitted)
  {}

  function Length(s: Slice): nat { if s.Nil? then 0 else s.len }

  /** One message limiter: per agent, per room, or per address. */
  class MessageLimiter {
    const limit: nat
    var windows: map<Id, Slice>

    constructor (limit: nat)
      ensures this.limit == limit && Separate(windows) && Views(windows) == map[]
    {
      this.limit := limit;
      windows := map[];
    }

    method AllowMessage(key: Id, now: Time) returns (ok: bool)
      requires Separate(windows)
      modifies this, Bufs(Lookup(windows, key))
      ensures Separate(windows)
      ensures ok <==> |LastMinute(Window(old(Views(windows)), key), now)| < limit
      ensures Views(windows) == Touch(old(Views(windows)), key, now, if ok then Admitted else Refused)
    {
      hide Prune, Touch, Separate, Views, LastMinute, Window;
      PruneCounts(Window(Views(windows), key), now);
      PrunedThenStored(Views(windows), key, now);
      var kept := PruneWindow(windows, key, now);
      assert Length(kept) == |View(kept)|;
      if Length(kept) >= limit {
        StoringKeeps(windows, key, kept);
        windows := windows[key := kept];
        return false;
      }
      windows := AdmitInto(windows, key, kept, now, {});
      return true;
    }
  }

  /** Both windows of a stream request, pruned before anything is decided. */
  method PrunePair(open: map<Id, Slice>, ips: map<Id, Slice>, key: Id, ip: Id, now: Time) returns (perKey: Slice, perIP: Slice)
    requires Separate(open) && Separate(ips) && AllBufs(open) !! AllBufs(ips)
    modifies Bufs(Lookup(open, key)), Bufs(Lookup(ips, ip))
    ensures Fits(perKey) && Bufs(perKey) <= Bufs(Lookup(open, key)) && Fits(perIP) && Bufs(perIP) <= Bufs(Lookup(ips, ip))
    ensures View(perKey) == Prune(Window(old(Views(open)), key), now - MINUTE)
    ensures View(perIP) == Prune(Window(old(Views(ips)), ip), now - MINUTE)
    ensures Views(open) == Touch(old(Views(open)), key, now, RefusedUnstored)
    ensures Views(ips) == Touch(old(Views(ips)), ip, now, RefusedUnstored)
  {
    hide Prune, Touch, Separate, Views;
    OthersApart(open, key);
    OthersApart(ips, ip);
    ghost var ipsBefore := Views(ips);
    perKey := PruneWindow(open, key, now);
    assert Views(ips) == ipsBefore;
    ghost var openPruned, keyPruned := Views(open), View(perKey);
    perIP := PruneWindow(ips, ip, now);
    assert Views(open) == openPruned && View(perKey) == keyPruned;
  }

  /** Both windows of an admitted request, appended to and stored. */
  method AdmitPair(open: map<Id, Slice>, ips: map<Id, Slice>, key: Id, ip: Id, perKey: Slice, perIP: Slice, now: Time)
    returns (open': map<Id, Slice>, ips': map<Id, Slice>)
    requires Separate(open) && Separate(ips) && AllBufs(open) !! AllBufs(ips)
    requires Fits(perKey) && Bufs(perKey) <= Bufs(Lookup(open, key)) && Fits(perIP) && Bufs(perIP) <= Bufs(Lookup(ips, ip))
    modifies Bufs(perKey), Bufs(perIP)
    ensures Separate(open') && Separate(ips') && AllBufs(open') !! AllBufs(ips')
    ensures Views(open') == old(Views(open))[key := old(View(perKey)) + [now]]
    ensures Views(ips') == old(Views(ips))[ip := old(View(perIP)) + [now]]
  {
    hide Separate, Views;
    OthersApart(open, key);
    OthersApart(ips, ip);
    ghost var ipsBefore, ipPruned := Views(ips), View(perIP);
    open' := AdmitInto(open, key, perKey, now, AllBufs(ips));
    assert Views(ips) == ipsBefore && View(perIP) == ipPruned;
    ghost var openAdmitted := Views(open');
    ips' := AdmitInto(ips, ip, perIP, now, AllBufs(open'));
    assert Views(open') == openAdmitted;
  }

  /** The windows' part of a stream request: what is decided, and what is stored. */
  method JudgeWindows(open: map<Id, Slice>, ips: map<Id, Slice>, active: nat, key: Id, ip: Id, now: Time)
    returns (verdict: Verdict, open': map<Id, Slice>, ips': map<Id, Slice>)
    requires Separate(open) && Separate(ips) && AllBufs(open) !! AllBufs(ips)
    modifies Bufs(Lookup(open, key)), Bufs(Lookup(ips, ip))
    ensures Separate(open') && Separate(ips') && AllBufs(open') !! AllBufs(ips')
    ensures verdict == JudgeWindowsOf(old(Views(open)), old(Views(ips)), active, key, ip, now)
    ensures Views(open') == Touch(old(Views(open)), key, now, KeyOutcome(verdict))
    ensures Views(ips') == Touch(old(Views(ips)), ip, now, IpOutcome(verdict))
  {
    hide Prune, Touch, Separate, Views, AllBufs;
    PrunedThenStored(Views(open), key, now);
    PrunedThenStored(Views(ips), ip, now);
    var perKey, perIP := PrunePair(open, ips, key, ip, now);
    assert Length(perKey) == |View(perKey)| && Length(perIP) == |View(perIP)|;
    if active >= STREAMS_PER_KEY {
      return TooManyActive, open, ips;
    }
    if Length(perKey) >= OPENS_PER_KEY {
      StoringKeeps(open, key, perKey);
      return KeyLimited, open[key := perKey], ips;
    }
    if Length(perIP) >= OPENS_PER_IP {
      StoringKeeps(ips, ip, perIP);
      return IpLimited, open, ips[ip := perIP];
    }
    verdict := Granted;
    open', ips' := AdmitPair(open, ips, key, ip, perKey, perIP, now);
  }

  class StreamSlots {
    var open: map<Id, Slice>
    var ips: map<Id, Slice>
    var counts: map<Id, nat>
    var handles: seq<Handle>

    ghost predicate Valid()
      reads this
    {
      Separate(open) && Separate(ips) && AllBufs(open) !! AllBufs(ips)
    }

    /** What the specification sees: lists instead of arrays. */
    ghost function State(): Streams
      requires Valid()
      reads this, AllBufs(open), AllBufs(ips)
    {
      Streams(Views(open), Views(ips), counts, handles, map[], map[], 0)
    }

    constructor ()
      ensures Valid() && State() == NO_STREAMS
    {
      open, ips, counts, handles := map[], map[], map[], [];
    }

    method AcquireStreamSlot(key: Id, ip: Id, now: Time) returns (verdict: Verdict, handle: nat)
      requires Valid()
      modifies this, Bufs(Lookup(open, key)), Bufs(Lookup(ips, ip))
      ensures Valid()
      ensures verdict == JudgeWindowsOf(old(Views(open)), old(Views(ips)), Count(old(counts), key), key, ip, now)
      ensures Views(open) == Touch(old(Views(open)), key, now, KeyOutcome(verdict))
      ensures Views(ips) == Touch(old(Views(ips)), ip, now, IpOutcome(verdict))
      ensures counts == if verdict.Granted? then old(counts)[key := Count(old(counts), key) + 1] else old(counts)
      ensures handles == if verdict.Granted? then old(handles) + [Handle(key, false)] else old(handles)
      ensures verdict.Granted? ==> handle == |old(handles)|
    {
      hide Touch, Separate, Views, JudgeWindowsOf, KeyOutcome, IpOutcome;
      handle := |handles|;
      var open', ips';
      verdict, open', ips' := JudgeWindows(open, ips, Count(counts, key), key, ip, now);
      ghost var openView, ipsView := Views(open'), Views(ips');
      Record(open', ips', verdict, key);
      assert Views(open) == openView && Views(ips) == ipsView;
    }

    method Record(open': map<Id, Slice>, ips': map<Id, Slice>, verdict: Verdict, key: Id)
      modifies this
      ensures open == open' && ips == ips'
      ensures counts == if verdict.Granted? then old(counts)[key := Count(old(counts), key) + 1] else old(counts)
      ensures handles == if verdict.Granted? then old(handles) + [Handle(key, false)] else old(handles)
    {
      open, ips := open', ips';
      if verdict.Granted? {
        counts := counts[key := Count(counts, key) + 1];
        handles := handles + [Handle(key, false)];
      }
    }

    /** A slot is given back once, however often it is released. */
    method ReleaseStreamSlot(h: nat)
      requires Valid()
      modifies this`counts, this`handles
      ensures Valid()
      ensures State() == Apply(old(State()), Release(h))
    {
      hide Separate, Views;
      if h < |handles| && !handles[h].released {
        var key := handles[h].key;
        handles := handles[h := Handle(key, true)];
        if Count(counts, key) <= 1 {
          counts := counts - {key};
        } else {
          counts := counts[key := counts[key] - 1];
        }
      }
    }
  }
}
