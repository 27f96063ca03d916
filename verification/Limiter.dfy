/**
 * Sliding one-minute windows.  A window is a list of admission times; a check first drops the old
 * ones, in place, and some refusals do not store the shortened list.
 */
module Limiter {
  import opened Prelude

  const MINUTE: int := 60
  const STREAMS_PER_KEY := 5
  const OPENS_PER_KEY := 30
  const OPENS_PER_IP := 120

  function Prune(w: seq<Time>, keepAfter: Time): seq<Time>
  {
    if w == [] then []
    else Prune(w[..|w|-1], keepAfter) + (if w[|w|-1] > keepAfter then [w[|w|-1]] else [])
  }

  lemma {:induction false} PruneShortens(w: seq<Time>, keepAfter: Time)
    ensures |Prune(w, keepAfter)| <= |w|
  {
    if w != [] {
      PruneShortens(w[..|w|-1], keepAfter);
    }
  }

  /** What the stored list shows when it was pruned in place but kept its old length. */
  function Compacted(w: seq<Time>, keepAfter: Time): seq<Time>
  {
    PruneShortens(w, keepAfter);
    var kept := Prune(w, keepAfter);
    kept + w[|kept|..]
  }

  /** What one check does to one window. */
  datatype Outcome = Admitted | Refused | RefusedUnstored

  function After(w: seq<Time>, now: Time, o: Outcome): seq<Time>
  {
    match o
    case Admitted => Prune(w, now - MINUTE) + [now]
    case Refused => Prune(w, now - MINUTE)
    case RefusedUnstored => Compacted(w, now - MINUTE)
  }

  predicate Full(w: seq<Time>, now: Time, limit: nat)
  {
    |Prune(w, now - MINUTE)| >= limit
  }

  // ---------- one window against its log of admissions ----------

  ghost predicate Sorted(log: seq<Time>)
  {
    forall i, j :: 0 <= i < j < |log| ==> log[i] <= log[j]
  }

  /** Any limit + 1 admissions in a row take at least a minute: no one-minute window holds more than the limit. */
  ghost predicate Spaced(log: seq<Time>, limit: nat)
  {
    forall i :: limit <= i < |log| ==> log[i - limit] <= log[i] - MINUTE
  }

  /** The window shows at least every recent admission, as often as it happened. */
  ghost predicate Remembers(w: seq<Time>, log: seq<Time>, now: Time)
  {
    forall t :: t > now - MINUTE ==> multiset(log)[t] <= multiset(w)[t]
  }

  ghost predicate WindowOk(w: seq<Time>, log: seq<Time>, now: Time, limit: nat)
  {
    Sorted(log) && Spaced(log, limit) && Remembers(w, log, now) && forall i :: 0 <= i < |log| ==> log[i] <= now
  }

  lemma {:induction false} PruneKeepsRecent(w: seq<Time>, keepAfter: Time, t: Time)
    ensures multiset(Prune(w, keepAfter))[t] == if t > keepAfter then multiset(w)[t] else 0
  {
    if w != [] {
      PruneKeepsRecent(w[..|w|-1], keepAfter, t);
      assert w == w[..|w|-1] + [w[|w|-1]];
    }
  }

  /** Compacting in place without storing the new length loses no recent admission; it may show some twice. */
  lemma CompactedKeepsRecent(w: seq<Time>, keepAfter: Time, t: Time)
    ensures t > keepAfter ==> multiset(Compacted(w, keepAfter))[t] >= multiset(w)[t]
  {
    PruneKeepsRecent(w, keepAfter, t);
  }

  /** For a list in order, it shows some twice exactly when something was dropped and something was kept. */
  lemma {:induction false} CompactedOvercountsIff(w: seq<Time>, keepAfter: Time)
    requires Sorted(w)
    ensures (exists t :: t > keepAfter && multiset(Compacted(w, keepAfter))[t] > multiset(w)[t])
        <==> 0 < |Prune(w, keepAfter)| < |w|
  {
    PruneIsSuffix(w, keepAfter);
    var kept := Prune(w, keepAfter);
    var k := |kept|;
    var tail := w[k..];
    if 0 < k < |w| {
      var t := w[|w|-1];
      assert t == kept[k - 1];
      PruneKeepsRecent(w, keepAfter, t);
      assert t == tail[|tail|-1];
      assert t > keepAfter;
    } else if k == 0 {
      forall t | t > keepAfter ensures multiset(Compacted(w, keepAfter))[t] == multiset(w)[t] {
        PruneKeepsRecent(w, keepAfter, t);
        assert Compacted(w, keepAfter) == w;
      }
    } else {
      assert kept == w && tail == [];
      assert Compacted(w, keepAfter) == w;
    }
  }

  lemma {:induction false} PruneDropsOld(w: seq<Time>, keepAfter: Time)
    requires forall i :: 0 <= i < |w| ==> w[i] <= keepAfter
    ensures Prune(w, keepAfter) == []
  {
    if w != [] {
      PruneDropsOld(w[..|w|-1], keepAfter);
    }
  }

  /** In a list in order, what is kept are the last ones. */
  lemma {:induction false} PruneIsSuffix(w: seq<Time>, keepAfter: Time)
    requires Sorted(w)
    ensures var kept := Prune(w, keepAfter);
            && |kept| <= |w| && kept == w[|w| - |kept|..]
            && (forall i :: |w| - |kept| <= i < |w| ==> w[i] > keepAfter)
            && (forall i :: 0 <= i < |w| - |kept| ==> w[i] <= keepAfter)
  {
    if w != [] {
      var n := |w| - 1;
      if w[n] <= keepAfter {
        PruneDropsOld(w, keepAfter);
      } else {
        hide Sorted;
        PruneIsSuffix(w[..n], keepAfter) by { SortedPrefix(w, n); }
        var before := Prune(w[..n], keepAfter);
        var c := n - |before|;
        assert Prune(w, keepAfter) == before + [w[n]];
        assert w[..n][c..] + [w[n]] == w[c..];
      }
    }
  }

  lemma SortedPrefix(w: seq<Time>, n: nat)
    requires Sorted(w) && n <= |w|
    ensures Sorted(w[..n])
  {}

  /** Every outcome keeps the recent admissions in view. */
  lemma OutcomeRemembers(w: seq<Time>, log: seq<Time>, clock: Time, now: Time, o: Outcome)
    requires Remembers(w, log, clock) && clock <= now
    ensures Remembers(After(w, now, o), if o.Admitted? then log + [now] else log, now)
  {
    hide Prune, Compacted;
    forall t | t > now - MINUTE
      ensures multiset(if o.Admitted? then log + [now] else log)[t] <= multiset(After(w, now, o))[t]
    {
      PruneKeepsRecent(w, now - MINUTE, t);
      CompactedKeepsRecent(w, now - MINUTE, t);
    }
  }

  lemma SubmultisetIsShorter(a: multiset<Time>, b: multiset<Time>)
    requires a <= b
    ensures |a| <= |b|
  {
    assert b == a + (b - a);
  }

  /** Admissions that are all within the minute all show in the pruned window. */
  lemma RecentOnesShow(w: seq<Time>, log: seq<Time>, now: Time, from: nat)
    requires Remembers(w, log, now) && from <= |log|
    requires forall i :: from <= i < |log| ==> log[i] > now - MINUTE
    ensures |log| - from <= |Prune(w, now - MINUTE)|
  {
    var recent, kept := log[from..], Prune(w, now - MINUTE);
    assert log == log[..from] + recent;
    forall t ensures multiset(recent)[t] <= multiset(kept)[t] {
      PruneKeepsRecent(w, now - MINUTE, t);
      assert t in multiset(recent) ==> t in recent;
    }
    SubmultisetIsShorter(multiset(recent), multiset(kept));
  }

  /** A window with room means the last `limit` admissions were not all within the minute. */
  lemma AdmittingKeepsSpacing(w: seq<Time>, log: seq<Time>, clock: Time, now: Time, limit: nat)
    requires WindowOk(w, log, clock, limit) && clock <= now && limit > 0 && !Full(w, now, limit)
    ensures Spaced(log + [now], limit)
  {
    var n := |log|;
    if n >= limit && log[n - limit] > now - MINUTE {
      RecentOnesShow(w, log, now, n - limit);
    }
  }

  lemma OutcomeKeeps(w: seq<Time>, log: seq<Time>, clock: Time, now: Time, limit: nat, o: Outcome)
    requires WindowOk(w, log, clock, limit) && clock <= now && limit > 0
    requires o.Admitted? ==> !Full(w, now, limit)
    ensures WindowOk(After(w, now, o), if o.Admitted? then log + [now] else log, now, limit)
  {
    OutcomeRemembers(w, log, clock, now, o);
    if o.Admitted? {
      AdmittingKeepsSpacing(w, log, clock, now, limit);
    }
  }

  // ---------- limiters that always store the shortened list ----------

  lemma {:induction false} PruneAgain(w: seq<Time>, first: Time, second: Time)
    requires first <= second
    ensures Prune(Prune(w, first), second) == Prune(w, second)
  {
    if w != [] {
      var n := |w| - 1;
      PruneAgain(w[..n], first, second);
      PruneAppend(Prune(w[..n], first), w[n], second);
      assert w[n] <= first ==> Prune(w, first) == Prune(w[..n], first);
      assert w[n] <= second ==> Prune(w, second) == Prune(w[..n], second);
    }
  }

  lemma PruneAppend(w: seq<Time>, t: Time, keepAfter: Time)
    ensures Prune(w + [t], keepAfter) == Prune(w, keepAfter) + if t > keepAfter then [t] else []
  {
    assert (w + [t])[..|w|] == w;
  }

  /** The window and the admissions a message limiter ends with, for requests at these times. */
  function Feed(times: seq<Time>, limit: nat): (seq<Time>, seq<Time>)
  {
    if times == [] then ([], [])
    else
      var (w, log) := Feed(times[..|times|-1], limit);
      var now := times[|times|-1];
      if Full(w, now, limit) then (After(w, now, Refused), log) else (After(w, now, Admitted), log + [now])
  }

  lemma SortedEnd(times: seq<Time>, now: Time)
    requires Sorted(times + [now]) && times != []
    ensures Sorted(times[..|times|-1] + [times[|times|-1]]) && times[|times|-1] <= now
  {
    var n := |times| - 1;
    assert forall i :: 0 <= i < |times| ==> (times + [now])[i] == times[i];
    assert times[..n] + [times[n]] == times;
    assert (times + [now])[n] <= (times + [now])[n + 1];
  }

  lemma TimePasses(w: seq<Time>, log: seq<Time>, clock: Time, now: Time, limit: nat)
    requires WindowOk(w, log, clock, limit) && clock <= now
    ensures WindowOk(w, log, now, limit)
  {}

  /** Windows that agreed on the recent past still agree after a request both took, or both refused. */
  lemma AgreeingStays(w: seq<Time>, log: seq<Time>, last: Time, now: Time)
    requires Prune(w, last - MINUTE) == Prune(log, last - MINUTE) && last <= now
    ensures Prune(Prune(w, last - MINUTE), now - MINUTE) == Prune(log, now - MINUTE)
    ensures Prune(Prune(w, last - MINUTE) + [last], now - MINUTE) == Prune(log + [last], now - MINUTE)
  {
    PruneAgain(w, last - MINUTE, now - MINUTE);
    PruneAgain(log, last - MINUTE, now - MINUTE);
    PruneAppend(Prune(w, last - MINUTE), last, now - MINUTE);
    PruneAppend(log, last, now - MINUTE);
  }

  lemma {:induction false} FeedMatches(times: seq<Time>, limit: nat, now: Time)
    requires Sorted(times + [now])
    ensures var (w, log) := Feed(times, limit); Prune(w, now - MINUTE) == Prune(log, now - MINUTE)
  {
    hide Sorted, Prune, Full;
    if times != [] {
      var n := |times| - 1;
      SortedEnd(times, now);
      FeedMatches(times[..n], limit, times[n]);
      var (w, log) := Feed(times[..n], limit);
      AgreeingStays(w, log, times[n], now);
    }
  }

  lemma {:induction false} FeedIsOk(times: seq<Time>, limit: nat, now: Time)
    requires Sorted(times + [now]) && limit > 0
    ensures var (w, log) := Feed(times, limit); WindowOk(w, log, now, limit)
  {
    hide Sorted, Prune, Full, WindowOk;
    if times == [] {
      NothingAdmittedYet(now, limit);
    } else {
      var n := |times| - 1;
      var last := times[n];
      SortedEnd(times, now);
      FeedIsOk(times[..n], limit, last);
      var (v, before) := Feed(times[..n], limit);
      OutcomeKeeps(v, before, last, last, limit, if Full(v, last, limit) then Refused else Admitted);
      var (w, log) := Feed(times, limit);
      TimePasses(w, log, last, now, limit);
    }
  }

  lemma NothingAdmittedYet(now: Time, limit: nat)
    ensures WindowOk([], [], now, limit)
  {}

  /**
   * A message limiter is exact: it admits a request if and only if fewer than `limit` of those it
   * admitted fall in the minute before it; and so no minute ever holds more than `limit`.
   */
  lemma MessageLimiterIsExact(times: seq<Time>, limit: nat, now: Time)
    requires Sorted(times + [now]) && limit > 0
    ensures var (w, log) := Feed(times, limit);
            && (Full(w, now, limit) <==> |Prune(log, now - MINUTE)| >= limit)
            && Spaced(log, limit)
  {
    hide Feed, Prune;
    FeedMatches(times, limit, now);
    FeedIsOk(times, limit, now);
  }

  // ---------- stream slots ----------

  type Id = string

  /** A slot somebody holds, or held. */
  datatype Handle = Handle(key: Id, released: bool)

  /** `openLog` and `ipLog` are history: the admissions behind each window. */
  datatype Streams = Streams(open: map<Id, seq<Time>>, ips: map<Id, seq<Time>>, counts: map<Id, nat>, handles: seq<Handle>,
                             openLog: map<Id, seq<Time>>, ipLog: map<Id, seq<Time>>, clock: Time)

  function Window(m: map<Id, seq<Time>>, k: Id): seq<Time> { if k in m then m[k] else [] }

  function Count(counts: map<Id, nat>, k: Id): nat { if k in counts then counts[k] else 0 }

  datatype Verdict = Granted | TooManyActive | KeyLimited | IpLimited

  function JudgeWindowsOf(open: map<Id, seq<Time>>, ips: map<Id, seq<Time>>, active: nat, key: Id, ip: Id, now: Time): Verdict
  {
    if active >= STREAMS_PER_KEY then TooManyActive
    else if Full(Window(open, key), now, OPENS_PER_KEY) then KeyLimited
    else if Full(Window(ips, ip), now, OPENS_PER_IP) then IpLimited
    else Granted
  }

  function Judge(s: Streams, key: Id, ip: Id, now: Time): Verdict
  {
    JudgeWindowsOf(s.open, s.ips, Count(s.counts, key), key, ip, now)
  }

  /** The admissions a window shows within the minute before now. */
  ghost function LastMinute(w: seq<Time>, now: Time): set<int>
  {
    set i | 0 <= i < |w| && w[i] > now - 60
  }

  lemma {:induction false} PruneCounts(w: seq<Time>, now: Time)
    ensures |Prune(w, now - 60)| == |LastMinute(w, now)|
  {
    if w != [] {
      var n := |w| - 1;
      PruneCounts(w[..n], now);
      assert LastMinute(w, now) == LastMinute(w[..n], now) + if w[n] > now - 60 then {n} else {};
    }
  }

  /** A slot is granted if and only if fewer than 5 are held, and key and address show fewer than 30 and 120 opens within the minute; the first of these that fails is the reason given. */
  lemma SlotAnswers(s: Streams, key: Id, ip: Id, now: Time)
    ensures var held := if key in s.counts then s.counts[key] else 0;
            var opens := |LastMinute(if key in s.open then s.open[key] else [], now)|;
            var fromIp := |LastMinute(if ip in s.ips then s.ips[ip] else [], now)|;
            var v := Judge(s, key, ip, now);
            && (v == Granted <==> held < 5 && opens < 30 && fromIp < 120)
            && (v == TooManyActive <==> held >= 5)
            && (v == KeyLimited <==> held < 5 && opens >= 30)
            && (v == IpLimited <==> held < 5 && opens < 30 && fromIp >= 120)
  {
    PruneCounts(Window(s.open, key), now);
    PruneCounts(Window(s.ips, ip), now);
    hide Prune;
  }

  /** Only a grant takes a slot and counts as an open; a limited key or address has its window shortened, and any other window is left as the pruning left it. */
  lemma SlotWrites(s: Streams, key: Id, ip: Id, now: Time)
    requires now >= s.clock
    ensures var s', v := Apply(s, Acquire(key, ip, now)), Judge(s, key, ip, now);
            var opens, fromIp := if key in s.open then s.open[key] else [], if ip in s.ips then s.ips[ip] else [];
            && (v == Granted ==>
                  && s'.handles == s.handles + [Handle(key, false)] && s'.counts == s.counts[key := (if key in s.counts then s.counts[key] else 0) + 1]
                  && s'.open == s.open[key := Prune(opens, now - 60) + [now]] && s'.ips == s.ips[ip := Prune(fromIp, now - 60) + [now]])
            && (v != Granted ==> s'.handles == s.handles && s'.counts == s.counts && s'.openLog == s.openLog && s'.ipLog == s.ipLog)
            && (v == KeyLimited ==> s'.open == s.open[key := Prune(opens, now - 60)])
            && (v == IpLimited ==> s'.ips == s.ips[ip := Prune(fromIp, now - 60)])
            && (v == TooManyActive || v == IpLimited ==> s'.open == if key in s.open then s.open[key := Compacted(opens, now - 60)] else s.open)
            && (v == TooManyActive || v == KeyLimited ==> s'.ips == if ip in s.ips then s.ips[ip := Compacted(fromIp, now - 60)] else s.ips)
  {
    hide Prune, Compacted, Full;
  }

  function KeyOutcome(v: Verdict): Outcome
  {
    if v.Granted? then Admitted else if v.KeyLimited? then Refused else RefusedUnstored
  }

  function IpOutcome(v: Verdict): Outcome
  {
    if v.Granted? then Admitted else if v.IpLimited? then Refused else RefusedUnstored
  }

  /** A list that was never stored cannot be compacted behind the map's back. */
  function Touch(m: map<Id, seq<Time>>, k: Id, now: Time, o: Outcome): map<Id, seq<Time>>
  {
    if o.RefusedUnstored? && k !in m then m else m[k := After(Window(m, k), now, o)]
  }

  function Log(m: map<Id, seq<Time>>, k: Id, now: Time, v: Verdict): map<Id, seq<Time>>
  {
    if v.Granted? then m[k := Window(m, k) + [now]] else m
  }

  datatype Event = Acquire(key: Id, ip: Id, now: Time) | Release(handle: nat)

  /** Time does not run backwards: an earlier `now` is no event. */
  function Apply(s: Streams, e: Event): Streams
  {
    match e
    case Acquire(key, ip, now) =>
      if now < s.clock then s
      else
        var v := Judge(s, key, ip, now);
        Streams(Touch(s.open, key, now, KeyOutcome(v)), Touch(s.ips, ip, now, IpOutcome(v)),
                if v.Granted? then s.counts[key := Count(s.counts, key) + 1] else s.counts,
                if v.Granted? then s.handles + [Handle(key, false)] else s.handles,
                Log(s.openLog, key, now, v), Log(s.ipLog, ip, now, v), now)
    case Release(h) =>
      if h >= |s.handles| || s.handles[h].released then s
      else
        var key := s.handles[h].key;
        s.(handles := s.handles[h := Handle(key, true)], counts := Uncount(s.counts, key))
  }

  function Uncount(counts: map<Id, nat>, key: Id): map<Id, nat>
  {
    if Count(counts, key) <= 1 then counts - {key} else counts[key := counts[key] - 1]
  }

  function Run(s: Streams, es: seq<Event>): Streams
  {
    if es == [] then s else Apply(Run(s, es[..|es|-1]), es[|es|-1])
  }

  const NO_STREAMS := Streams(map[], map[], map[], [], map[], map[], 0)

  function Held(handles: seq<Handle>, key: Id): nat
  {
    if handles == [] then 0
    else Held(handles[..|handles|-1], key) + if handles[|handles|-1] == Handle(key, false) then 1 else 0
  }

  ghost predicate WindowsOk(m: map<Id, seq<Time>>, logs: map<Id, seq<Time>>, clock: Time, limit: nat)
  {
    forall k :: WindowOk(Window(m, k), Window(logs, k), clock, limit)
  }

  ghost predicate CountsOk(counts: map<Id, nat>, handles: seq<Handle>)
  {
    forall k :: Count(counts, k) == Held(handles, k) <= STREAMS_PER_KEY
  }

  ghost predicate Inv(s: Streams)
  {
    && WindowsOk(s.open, s.openLog, s.clock, OPENS_PER_KEY) && WindowsOk(s.ips, s.ipLog, s.clock, OPENS_PER_IP)
    && CountsOk(s.counts, s.handles)
  }

  lemma TouchKeeps(m: map<Id, seq<Time>>, logs: map<Id, seq<Time>>, clock: Time, limit: nat, k: Id, now: Time, v: Verdict, o: Outcome)
    requires WindowsOk(m, logs, clock, limit) && clock <= now && limit > 0
    requires o.Admitted? <==> v.Granted?
    requires o.Admitted? ==> !Full(Window(m, k), now, limit)
    ensures WindowsOk(Touch(m, k, now, o), Log(logs, k, now, v), now, limit)
  {
    hide WindowOk, Full, Prune;
    OutcomeKeeps(Window(m, k), Window(logs, k), clock, now, limit, o);
    if k !in m && o.RefusedUnstored? {
      TimePasses(Window(m, k), Window(logs, k), clock, now, limit);
    }
    forall j | j != k ensures WindowOk(Window(Touch(m, k, now, o), j), Window(Log(logs, k, now, v), j), now, limit) {
      TimePasses(Window(m, j), Window(logs, j), clock, now, limit);
    }
  }

  lemma HeldAppend(handles: seq<Handle>, h: Handle, key: Id)
    ensures Held(handles + [h], key) == Held(handles, key) + if h == Handle(key, false) then 1 else 0
  {
    assert (handles + [h])[..|handles|] == handles;
  }

  lemma {:induction false} HeldRelease(handles: seq<Handle>, h: nat, key: Id)
    requires h < |handles| && !handles[h].released
    ensures Held(handles[h := Handle(handles[h].key, true)], key) == Held(handles, key) - if handles[h].key == key then 1 else 0
  {
    var n := |handles| - 1;
    var handles' := handles[h := Handle(handles[h].key, true)];
    if h < n {
      HeldRelease(handles[..n], h, key);
      assert handles'[..n] == handles[..n][h := Handle(handles[h].key, true)];
    } else {
      assert handles'[..n] == handles[..n];
    }
  }

  lemma AcquireKeeps(s: Streams, e: Event)
    requires Inv(s) && e.Acquire?
    ensures Inv(Apply(s, e))
  {
    hide WindowsOk, Full;
    if e.now >= s.clock {
      var v := Judge(s, e.key, e.ip, e.now);
      TouchKeeps(s.open, s.openLog, s.clock, OPENS_PER_KEY, e.key, e.now, v, KeyOutcome(v));
      TouchKeeps(s.ips, s.ipLog, s.clock, OPENS_PER_IP, e.ip, e.now, v, IpOutcome(v));
      if v.Granted? {
        forall k ensures Held(s.handles + [Handle(e.key, false)], k) == Held(s.handles, k) + if k == e.key then 1 else 0 {
          HeldAppend(s.handles, Handle(e.key, false), k);
        }
      }
    }
  }

  lemma ReleaseKeeps(s: Streams, e: Event)
    requires Inv(s) && e.Release?
    ensures Inv(Apply(s, e))
  {
    hide WindowsOk;
    var h, s' := e.handle, Apply(s, e);
    if h < |s.handles| && !s.handles[h].released {
      var key := s.handles[h].key;
      HeldRelease(s.handles, h, key);
      assert Count(s.counts, key) == Held(s.handles, key);
      UncountSubtracts(s.counts, key);
      forall k ensures Count(s'.counts, k) == Held(s'.handles, k) <= STREAMS_PER_KEY {
        HeldRelease(s.handles, h, k);
        assert Count(s.counts, k) == Held(s.handles, k) <= STREAMS_PER_KEY;
      }
      assert CountsOk(s'.counts, s'.handles);
    }
  }

  lemma UncountSubtracts(counts: map<Id, nat>, key: Id)
    requires Count(counts, key) > 0
    ensures forall k :: Count(Uncount(counts, key), k) == Count(counts, k) - if k == key then 1 else 0
  {}

  lemma {:induction false} RunKeeps(es: seq<Event>)
    ensures Inv(Run(NO_STREAMS, es))
  {
    hide Apply;
    if es != [] {
      hide Inv;
      RunKeeps(es[..|es|-1]);
      var s, e := Run(NO_STREAMS, es[..|es|-1]), es[|es|-1];
      if e.Acquire? {
        AcquireKeeps(s, e);
      } else {
        ReleaseKeeps(s, e);
      }
    }
  }

  /** In every run: at most 30 opens a minute per room and agent, at most 120 per address, and at most 5 streams held at once. */
  lemma StreamLimitsHold(es: seq<Event>, k: Id)
    ensures var end := Run(NO_STREAMS, es);
            && Spaced(Window(end.openLog, k), OPENS_PER_KEY) && Spaced(Window(end.ipLog, k), OPENS_PER_IP)
            && Count(end.counts, k) == Held(end.handles, k) <= STREAMS_PER_KEY
  {
    RunKeeps(es);
    var end := Run(NO_STREAMS, es);
    assert WindowOk(Window(end.open, k), Window(end.openLog, k), end.clock, OPENS_PER_KEY);
    assert WindowOk(Window(end.ips, k), Window(end.ipLog, k), end.clock, OPENS_PER_IP);
  }

  /** More than `limit` admissions never fit in less than a minute. */
  lemma CrowdsTakeAMinute(log: seq<Time>, limit: nat, first: nat, last: nat)
    requires Sorted(log) && Spaced(log, limit) && first + limit <= last < |log| && limit > 0
    ensures log[first] + MINUTE <= log[last]
  {
    assert log[last - limit] <= log[last] - MINUTE;
  }
}
