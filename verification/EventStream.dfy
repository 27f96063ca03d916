/**
 * One client's stream of one room: history is replayed page by page, then live events follow.  The
 * stream's steps interleave with events being committed and published.
 */
module EventStream {
  import opened Prelude

  const PAGE_CAP := 200

  datatype Phase = Opening | Replaying | Live | Closed

  /**
   * The subscription's channel; a dropped one can still be read until it is empty.  `first` is
   * history: the position, among all events, of what stands at the head of the channel.
   */
  datatype Sub = Sub(chan: seq<nat>, dropped: bool, first: nat)

  /** `events` are the ids of the room's committed events; the first `published` of them went through the hub. */
  datatype Stream = Stream(events: seq<nat>, published: nat, sub: Option<Sub>, buffer: nat,
                           phase: Phase, from: nat, limit: nat, since: nat, written: seq<nat>)

  /** How many of the events have an id up to `since`; ids are increasing. */
  function Upto(events: seq<nat>, since: nat): nat
  {
    if events == [] then 0 else if events[|events|-1] <= since then |events| else Upto(events[..|events|-1], since)
  }

  /** One page of history: the next events by id, at most the requested number and never more than the cap. */
  function Page(events: seq<nat>, since: nat, limit: nat): seq<nat>
    requires Upto(events, since) <= |events|
  {
    var n := Upto(events, since);
    var cap := if limit == 0 || limit > PAGE_CAP then PAGE_CAP else limit;
    events[n..Min(n + cap, |events|)]
  }

  function LastOr(part: seq<nat>, since: nat): nat
  {
    if part == [] then since else part[|part|-1]
  }

  /** After sending these events. */
  function Wrote(s: Stream, part: seq<nat>, phase: Phase): Stream
  {
    s.(written := s.written + part, since := LastOr(part, s.since), phase := phase)
  }

  datatype Event =
    | Commit(id: nat)
    | Publish
    | Intrude(id: nat)
    | Subscribe
    | ReplayPage
    | WriteFails(sent: nat)
    | ReadLive
    | Hangup

  /** `Intrude` puts anything at all into the channel; it stands for publishers that race with each other. */
  function Apply(s: Stream, e: Event): Stream
  {
    match e
    case Commit(id) => if id > 0 && (s.events == [] || id > s.events[|s.events|-1]) then s.(events := s.events + [id]) else s
    case Publish =>
      if s.published >= |s.events| then s
      else s.(published := s.published + 1, sub := if s.sub.None? then None else Some(Send(s.sub.value, s.events[s.published], s.buffer)))
    case Intrude(id) => if s.sub.None? then s else s.(sub := Some(Send(s.sub.value, id, s.buffer)))
    case Subscribe => if s.phase != Opening then s else s.(phase := Replaying, sub := Some(Sub([], false, s.published)))
    case ReplayPage =>
      if s.phase != Replaying || Upto(s.events, s.since) > |s.events| then s
      else if s.since > 0 && s.since !in s.events then s.(phase := Closed)
      else
        var page := Page(s.events, s.since, s.limit);
        Wrote(s, page, if |page| == 0 || |page| < s.limit then Live else Replaying)
    case WriteFails(sent) =>
      // The connection breaks after part of a page.
      if s.phase != Replaying || Upto(s.events, s.since) > |s.events| || (s.since > 0 && s.since !in s.events) then s
      else
        var page := Page(s.events, s.since, s.limit);
        Wrote(s, page[..Min(sent, |page|)], Closed)
    case ReadLive =>
      if s.phase != Live || s.sub.None? then s
      else if s.sub.value.chan == [] then (if s.sub.value.dropped then s.(phase := Closed) else s)
      else
        var item := s.sub.value.chan[0];
        var rest := s.sub.value.(chan := s.sub.value.chan[1..], first := s.sub.value.first + 1);
        if item <= s.since then s.(sub := Some(rest))
        else s.(sub := Some(rest), written := s.written + [item], since := item)
    case Hangup => s.(phase := Closed)
  }

  function Send(sub: Sub, id: nat, buffer: nat): Sub
  {
    if sub.dropped then sub
    else if |sub.chan| < buffer then sub.(chan := sub.chan + [id])
    else sub.(dropped := true)
  }

  function Run(s: Stream, es: seq<Event>): Stream
  {
    if es == [] then s else Apply(Run(s, es[..|es|-1]), es[|es|-1])
  }

  ghost predicate Increasing(ids: seq<nat>)
  {
    forall i, j :: 0 <= i < j < |ids| ==> ids[i] < ids[j]
  }

  /** A new request: the handler has written nothing and not subscribed yet. */
  ghost predicate Fresh(s: Stream)
  {
    && Increasing(s.events)
    && s.published <= |s.events| && s.sub.None? && s.buffer > 0 && s.limit > 0
    && s.phase == Opening && s.since == s.from && s.written == []
  }

  // ---------- positions ----------

  lemma {:induction false} UptoSplits(events: seq<nat>, since: nat)
    requires Increasing(events)
    ensures Upto(events, since) <= |events|
    ensures forall i :: 0 <= i < Upto(events, since) ==> events[i] <= since
    ensures forall i :: Upto(events, since) <= i < |events| ==> events[i] > since
  {
    if events != [] && events[|events|-1] > since {
      UptoSplits(events[..|events|-1], since);
    }
  }

  lemma UptoIs(events: seq<nat>, since: nat, n: nat)
    requires Increasing(events) && n <= |events|
    requires forall i :: 0 <= i < n ==> events[i] <= since
    requires forall i :: n <= i < |events| ==> events[i] > since
    ensures Upto(events, since) == n
  {
    UptoSplits(events, since);
    var u := Upto(events, since);
    assert forall i :: u <= i < |events| ==> !(events[i] <= since);
  }

  // ---------- ids only ever increase ----------

  ghost predicate Rising(s: Stream)
  {
    && Increasing(s.events) && Increasing(s.written) && s.from <= s.since
    && (forall i :: 0 <= i < |s.written| ==> s.from < s.written[i] <= s.since)
  }

  lemma PageRises(events: seq<nat>, since: nat, limit: nat)
    requires Increasing(events)
    ensures Upto(events, since) <= |events|
    ensures var page := Page(events, since, limit);
            Increasing(page) && forall i :: 0 <= i < |page| ==> since < page[i]
  {
    UptoSplits(events, since);
  }

  lemma RisingStep(s: Stream, e: Event)
    requires Rising(s)
    ensures Rising(Apply(s, e))
  {
    hide Upto;
    PageRises(s.events, s.since, s.limit);
  }

  lemma {:induction false} RisingRun(s: Stream, es: seq<Event>)
    requires Rising(s)
    ensures Rising(Run(s, es))
  {
    hide Apply;
    if es != [] {
      RisingRun(s, es[..|es|-1]);
      RisingStep(Run(s, es[..|es|-1]), es[|es|-1]);
    }
  }

  /** Whatever is published, in whatever order, the client sees strictly increasing ids, all beyond the one it asked for. */
  lemma WrittenIdsIncrease(s: Stream, es: seq<Event>)
    requires Fresh(s)
    ensures var end := Run(s, es); Increasing(end.written) && forall i :: 0 <= i < |end.written| ==> end.from < end.written[i]
  {
    RisingRun(s, es);
  }

  // ---------- nothing is missed ----------

  /** The channel holds exactly the events published since its head. */
  ghost predicate ChanOk(events: seq<nat>, published: nat, sub: Option<Sub>)
  {
    published <= |events| &&
    (sub.Some? ==>
      && sub.value.first + |sub.value.chan| <= published
      && sub.value.chan == events[sub.value.first..sub.value.first + |sub.value.chan|]
      && (!sub.value.dropped ==> sub.value.first + |sub.value.chan| == published))
  }

  /** Exactly the events after `from` and up to `since` were written. */
  ghost predicate Covers(events: seq<nat>, from: nat, since: nat, written: seq<nat>)
  {
    && Increasing(events) && from <= since
    && Upto(events, from) <= Upto(events, since) <= |events|
    && (if written == [] then since == from else since in events)
    && written == events[Upto(events, from)..Upto(events, since)]
  }

  ghost predicate Inv(s: Stream)
  {
    && Covers(s.events, s.from, s.since, s.written)
    && s.published <= |s.events| && s.limit > 0 && s.buffer > 0
    && ((s.phase == Live || s.phase == Replaying) ==> s.sub.Some?)
    && ChanOk(s.events, s.published, s.sub)
    && (s.phase == Live ==> s.sub.value.first <= Upto(s.events, s.since) && (s.since == 0 || s.since in s.events))
    && (s.phase == Replaying && s.sub.value.dropped ==> s.sub.value.chan != [])
  }

  lemma UptoMember(events: seq<nat>, k: nat)
    requires Increasing(events) && k < |events|
    ensures Upto(events, events[k]) == k + 1
  {
    UptoIs(events, events[k], k + 1);
  }

  lemma UptoMonotone(events: seq<nat>, a: nat, b: nat)
    requires Increasing(events) && a <= b
    ensures Upto(events, a) <= Upto(events, b) <= |events|
  {
    UptoSplits(events, a);
    UptoSplits(events, b);
    var n := Upto(events, a);
    assert n > 0 ==> events[n - 1] <= b;
  }

  lemma CoversCommit(events: seq<nat>, from: nat, since: nat, written: seq<nat>, id: nat)
    requires Covers(events, from, since, written) && id > 0 && (events == [] || id > events[|events|-1])
    ensures Covers(events + [id], from, since, written)
    ensures since == 0 || since in events ==> Upto(events + [id], since) == Upto(events, since)
  {
    var events' := events + [id];
    assert events'[..|events'|-1] == events;
    if since == 0 || since in events {
      assert since < id;
    } else {
      UptoMonotone(events', from, since);
    }
  }

  lemma CommitKeeps(s: Stream, id: nat)
    requires Inv(s) && id > 0 && (s.events == [] || id > s.events[|s.events|-1])
    ensures Inv(s.(events := s.events + [id]))
  {
    hide Covers, Upto;
    CoversCommit(s.events, s.from, s.since, s.written, id);
    if s.sub.Some? {
      var sub := s.sub.value;
      assert (s.events + [id])[sub.first..sub.first + |sub.chan|] == s.events[sub.first..sub.first + |sub.chan|];
    }
  }

  lemma PublishKeeps(s: Stream)
    requires Inv(s)
    ensures Inv(Apply(s, Publish))
  {
    hide Covers, Upto;
    if s.published < |s.events| && s.sub.Some? {
      var sub := s.sub.value;
      if !sub.dropped && |sub.chan| < s.buffer {
        assert sub.chan + [s.events[s.published]] == s.events[sub.first..s.published + 1];
      }
    }
  }

  /** The next `n` events extend what was written without a gap. */
  lemma CoversMore(events: seq<nat>, from: nat, since: nat, written: seq<nat>, n: nat)
    requires Covers(events, from, since, written) && n > 0 && Upto(events, since) + n <= |events|
    ensures var u := Upto(events, since);
            && Covers(events, from, events[u + n - 1], written + events[u..u + n])
            && Upto(events, events[u + n - 1]) == u + n && events[u + n - 1] in events
  {
    var u := Upto(events, since);
    UptoSplits(events, since);
    UptoMember(events, u + n - 1);
  }

  lemma PageIsNext(events: seq<nat>, since: nat, limit: nat)
    requires Upto(events, since) <= |events|
    ensures var page, u := Page(events, since, limit), Upto(events, since);
            u + |page| <= |events| && page == events[u..u + |page|] && (|page| < PAGE_CAP && |page| < limit ==> u + |page| == |events|) && |page| <= PAGE_CAP
  {}

  lemma CoversPart(events: seq<nat>, from: nat, since: nat, written: seq<nat>, n: nat)
    requires Covers(events, from, since, written) && Upto(events, since) + n <= |events|
    ensures var u := Upto(events, since);
            var last := LastOr(events[u..u + n], since);
            && Covers(events, from, last, written + events[u..u + n]) && Upto(events, last) == u + n
            && (since == 0 || since in events ==> last == 0 || last in events)
  {
    var u := Upto(events, since);
    if n > 0 {
      CoversMore(events, from, since, written, n);
    } else {
      assert written + events[u..u] == written;
    }
  }

  lemma WroteKeeps(s: Stream, part: seq<nat>, phase: Phase)
    requires Inv(s) && s.phase == Replaying && (s.since == 0 || s.since in s.events)
    requires Upto(s.events, s.since) + |part| <= |s.events|
    requires part == s.events[Upto(s.events, s.since)..Upto(s.events, s.since) + |part|]
    requires phase == Closed || phase == Replaying || (phase == Live && s.sub.value.first <= Upto(s.events, s.since) + |part|)
    ensures Inv(Wrote(s, part, phase))
  {
    hide Upto, Covers, LastOr, Wrote;
    CoversPart(s.events, s.from, s.since, s.written, |part|);
    var last := LastOr(part, s.since);
    hide Inv, ChanOk;
    WroteIsOk(s, part, phase, last);
  }

  lemma WroteIsOk(s: Stream, part: seq<nat>, phase: Phase, last: nat)
    requires Inv(s) && s.phase == Replaying && last == LastOr(part, s.since)
    requires Covers(s.events, s.from, last, s.written + part)
    requires phase == Live ==> s.sub.value.first <= Upto(s.events, last) && (last == 0 || last in s.events)
    requires phase != Opening
    ensures Inv(Wrote(s, part, phase))
  {
    hide Upto, Covers, ChanOk, LastOr;
  }

  lemma PageKeeps(s: Stream, e: Event)
    requires Inv(s) && (e.ReplayPage? || e.WriteFails?) && PageIsSafe(s, e)
    requires s.phase == Replaying && (s.since == 0 || s.since in s.events) && Upto(s.events, s.since) <= |s.events|
    ensures Inv(Apply(s, e))
  {
    hide Covers, Upto, Wrote, Page;
    var page := Page(s.events, s.since, s.limit);
    var u := Upto(s.events, s.since);
    PageIsNext(s.events, s.since, s.limit);
    assert s.sub.value.first <= |s.events|;
    hide Inv, ChanOk;
    if e.ReplayPage? {
      WroteKeeps(s, page, if |page| == 0 || |page| < s.limit then Live else Replaying);
    } else {
      var n := Min(e.sent, |page|);
      assert page[..n] == s.events[u..u + n];
      WroteKeeps(s, page[..n], Closed);
    }
  }

  lemma NextIsInPlace(events: seq<nat>, since: nat, first: nat)
    requires Increasing(events) && first < |events| && first <= Upto(events, since)
    ensures if events[first] > since then first == Upto(events, since) else first < Upto(events, since)
  {
    UptoSplits(events, since);
  }

  lemma ReadKeeps(s: Stream)
    requires Inv(s) && s.phase == Live && s.sub.value.chan != []
    ensures Inv(Apply(s, ReadLive))
  {
    hide Upto, Increasing;
    var sub := s.sub.value;
    var item := sub.chan[0];
    assert item == s.events[sub.first];
    assert sub.chan[1..] == s.events[sub.first + 1..sub.first + |sub.chan|];
    NextIsInPlace(s.events, s.since, sub.first);
    if item > s.since {
      ReadWrites(s, sub.first, item);
    }
  }

  lemma ReadWrites(s: Stream, first: nat, item: nat)
    requires Covers(s.events, s.from, s.since, s.written) && first < |s.events|
    requires first == Upto(s.events, s.since) && item == s.events[first]
    ensures Covers(s.events, s.from, item, s.written + [item]) && Upto(s.events, item) == first + 1 && item in s.events
  {
    CoversMore(s.events, s.from, s.since, s.written, 1);
    assert s.events[first..first + 1] == [item];
  }

  /** Publishing happens whole and in order. */
  predicate Orderly(es: seq<Event>)
  {
    forall i :: 0 <= i < |es| ==> !es[i].Intrude?
  }

  /** The page limit is within the cap, or one capped page reaches up to what is in the channel. */
  predicate PageIsSafe(s: Stream, e: Event)
  {
    (e.ReplayPage? && s.phase == Replaying && s.sub.Some?) ==>
      (s.limit <= PAGE_CAP || s.sub.value.first <= Upto(s.events, s.since) + PAGE_CAP)
  }

  ghost predicate PagesAreSafe(s: Stream, es: seq<Event>)
  {
    es == [] || (PagesAreSafe(s, es[..|es|-1]) && PageIsSafe(Run(s, es[..|es|-1]), es[|es|-1]))
  }

  /** Requests whose limit is within the cap need not care. */
  lemma {:induction false} SmallPagesAreSafe(s: Stream, es: seq<Event>)
    requires s.limit <= 200
    ensures PagesAreSafe(s, es) && Run(s, es).limit == s.limit
  {
    hide Upto, Page;
    if es != [] {
      SmallPagesAreSafe(s, es[..|es|-1]);
    }
  }

  lemma StepKeeps(s: Stream, e: Event)
    requires Inv(s) && PageIsSafe(s, e) && !e.Intrude?
    ensures Inv(Apply(s, e)) && Apply(s, e).from == s.from
  {
    hide Inv, Upto, Page;
    match e
    case Commit(id) => if Apply(s, e) != s { CommitKeeps(s, id); }
    case Publish => PublishKeeps(s);
    case ReplayPage => QuietOrPage(s, e);
    case WriteFails(_) => QuietOrPage(s, e);
    case ReadLive => QuietOrRead(s);
    case Subscribe => QuietKeeps(s, e);
    case Hangup => QuietKeeps(s, e);
  }

  lemma QuietOrPage(s: Stream, e: Event)
    requires Inv(s) && PageIsSafe(s, e) && (e.ReplayPage? || e.WriteFails?)
    ensures Inv(Apply(s, e))
  {
    hide Upto, Covers;
    if s.phase == Replaying && (s.since == 0 || s.since in s.events) && Upto(s.events, s.since) <= |s.events| {
      PageKeeps(s, e);
    }
  }

  lemma QuietOrRead(s: Stream)
    requires Inv(s)
    ensures Inv(Apply(s, ReadLive))
  {
    hide Upto, Covers;
    if s.phase == Live && s.sub.value.chan != [] {
      ReadKeeps(s);
    }
  }

  lemma QuietKeeps(s: Stream, e: Event)
    requires Inv(s) && (e.Subscribe? || e.Hangup?)
    ensures Inv(Apply(s, e))
  {
    hide Upto, Covers;
  }

  lemma FreshOk(s: Stream)
    requires Fresh(s)
    ensures Inv(s)
  {
    UptoSplits(s.events, s.from);
  }

  lemma {:induction false} RunKeeps(s: Stream, es: seq<Event>)
    requires Inv(s) && Orderly(es) && PagesAreSafe(s, es)
    ensures Inv(Run(s, es)) && Run(s, es).from == s.from
  {
    hide Inv, Apply, PageIsSafe;
    if es != [] {
      RunKeeps(s, es[..|es|-1]);
      StepKeeps(Run(s, es[..|es|-1]), es[|es|-1]);
    }
  }

  /**
   * At every moment of every orderly run with safe pages, also when the reader was dropped or hung
   * up, the client has been sent exactly the events after the one it asked for, up to the last it received.
   */
  lemma NothingIsMissed(s: Stream, es: seq<Event>)
    requires Fresh(s) && Orderly(es) && PagesAreSafe(s, es)
    ensures var end := Run(s, es);
            && Covers(end.events, s.from, end.since, end.written)
            && end.since == if end.written == [] then s.from else end.written[|end.written|-1]
  {
    hide Upto, Run, Fresh, Orderly, PagesAreSafe;
    FreshOk(s);
    RunKeeps(s, es);
    var end := Run(s, es);
    LastWritten(end.events, end.from, end.since, end.written);
  }

  lemma LastWritten(events: seq<nat>, from: nat, since: nat, written: seq<nat>)
    requires Covers(events, from, since, written)
    ensures since == if written == [] then from else written[|written|-1]
  {
    if written != [] {
      var k :| 0 <= k < |events| && events[k] == since;
      UptoMember(events, k);
    }
  }

  /** A live stream that was not dropped and has read its channel has sent everything published. */
  lemma CaughtUpMeansComplete(s: Stream, es: seq<Event>)
    requires Fresh(s) && Orderly(es) && PagesAreSafe(s, es)
    requires var end := Run(s, es); end.phase == Live && end.sub.Some? && end.sub.value.chan == [] && !end.sub.value.dropped
    ensures var end := Run(s, es); end.published <= Upto(end.events, end.since)
  {
    FreshOk(s);
    RunKeeps(s, es);
  }

  /** Coming back with the last id received continues the sequence where it stopped. */
  lemma ReconnectContinues(s: Stream, es: seq<Event>, t: Stream, fs: seq<Event>)
    requires Fresh(s) && Orderly(es) && PagesAreSafe(s, es)
    requires Fresh(t) && Orderly(fs) && PagesAreSafe(t, fs)
    requires t.from == Run(s, es).since && Run(s, es).events <= t.events
    requires Run(s, es).written != []
    ensures var end := Run(t, fs); Covers(end.events, s.from, end.since, Run(s, es).written + end.written)
  {
    hide Run, Fresh, Orderly, PagesAreSafe;
    var mid, end := Run(s, es), Run(t, fs);
    FreshOk(s);
    RunKeeps(s, es);
    FreshOk(t);
    RunKeeps(t, fs);
    EventsOnlyGrow(t, fs);
    CoversJoin(mid.events, end.events, s.from, mid.since, end.since, mid.written, end.written);
  }

  lemma CoversJoin(events: seq<nat>, events': seq<nat>, from: nat, mid: nat, since: nat, first: seq<nat>, second: seq<nat>)
    requires Covers(events, from, mid, first) && first != [] && events <= events' && Covers(events', mid, since, second)
    ensures Covers(events', from, since, first + second)
  {
    UptoStays(events, events', from, mid);
    var a, b, c := Upto(events', from), Upto(events', mid), Upto(events', since);
    assert events[a..b] == events'[a..b];
    assert events'[a..c] == events'[a..b] + events'[b..c];
    if second == [] {
      assert first + second == first;
      assert mid in events';
    }
  }

  lemma UptoStays(events: seq<nat>, events': seq<nat>, from: nat, since: nat)
    requires Increasing(events') && events <= events' && since in events && from <= since
    ensures Increasing(events) && Upto(events', since) == Upto(events, since) && Upto(events', from) == Upto(events, from)
  {
    assert Increasing(events) by {
      forall i, j | 0 <= i < j < |events| ensures events[i] < events[j] {
        assert events'[i] < events'[j];
      }
    }
    UptoSplits(events, since);
    UptoSplits(events, from);
    var k :| 0 <= k < |events| && events[k] == since;
    assert forall i :: |events| <= i < |events'| ==> events'[i] > events'[k];
    UptoIs(events', since, Upto(events, since));
    UptoIs(events', from, Upto(events, from));
  }

  lemma {:induction false} EventsOnlyGrow(s: Stream, es: seq<Event>)
    ensures s.events <= Run(s, es).events
  {
    if es != [] {
      EventsOnlyGrow(s, es[..|es|-1]);
    }
  }

  /** A published event reaches a reader that has a place for it, and cuts off one that has not. */
  lemma PublishReachesReaders(s: Stream)
    requires s.published < |s.events| && s.sub.Some? && !s.sub.value.dropped
    ensures var sub, sub' := s.sub.value, Apply(s, Publish).sub.value;
            if |sub.chan| < s.buffer then sub' == sub.(chan := sub.chan + [s.events[s.published]]) else sub' == sub.(dropped := true)
  {}

  // ---------- the end of the replay ----------

  /** Exactly the events after the requested one and up to the last received were written. */
  ghost predicate Complete(s: Stream)
  {
    Covers(s.events, s.from, s.since, s.written)
  }

  ghost predicate StaysComplete(s: Stream)
  {
    forall es :: Orderly(es) ==> Complete(Run(s, es))
  }

  /**
   * After a page of the replay no orderly continuation ever misses an event, if and only if the limit
   * is within the cap or one capped page reaches up to what is in the channel.
   */
  lemma HandoverIsCompleteIff(s: Stream)
    requires Inv(s) && s.phase == Replaying && (s.since == 0 || s.since in s.events)
    ensures s.sub.Some?
    ensures StaysComplete(Apply(s, ReplayPage)) <==> s.limit <= 200 || s.sub.value.first <= Upto(s.events, s.since) + 200
  {
    assert s.sub.Some?;
    hide Inv, StaysComplete, Apply, Upto;
    if s.limit <= PAGE_CAP || s.sub.value.first <= Upto(s.events, s.since) + PAGE_CAP {
      SafePagesStayComplete(s);
    } else {
      UnsafePagesLoseAnEvent(s);
    }
  }

  lemma SafePagesStayComplete(s: Stream)
    requires Inv(s) && s.phase == Replaying && PageIsSafe(s, ReplayPage)
    ensures StaysComplete(Apply(s, ReplayPage))
  {
    hide Inv, Upto, Covers, Page;
    StepKeeps(s, ReplayPage);
    var t := Apply(s, ReplayPage);
    assert t.limit == s.limit;
    if s.limit > PAGE_CAP {
      LargeLimitsTakeOnePage(s);
    }
    forall es | Orderly(es) ensures Complete(Run(t, es)) {
      if s.limit <= PAGE_CAP {
        SmallPagesAreSafe(t, es);
      } else {
        ReplayIsOver(t, es);
      }
      RunKeeps(t, es);
      InvMeansComplete(Run(t, es));
    }
  }

  lemma InvMeansComplete(s: Stream)
    requires Inv(s)
    ensures Complete(s)
  {}

  lemma LargeLimitsTakeOnePage(s: Stream)
    requires s.phase == Replaying && s.limit > PAGE_CAP && Inv(s)
    ensures Apply(s, ReplayPage).phase == Live || Apply(s, ReplayPage).phase == Closed
  {
    PageIsNext(s.events, s.since, s.limit);
    hide Page, Upto;
  }

  /** Once the replay is over no page is taken any more. */
  lemma {:induction false} ReplayIsOver(s: Stream, es: seq<Event>)
    requires s.phase == Live || s.phase == Closed
    ensures PagesAreSafe(s, es) && (Run(s, es).phase == Live || Run(s, es).phase == Closed)
  {
    hide Upto, Page;
    if es != [] {
      ReplayIsOver(s, es[..|es|-1]);
    }
  }

  /** A page that stops short of the channel: the next event read leaves a gap. */
  lemma UnsafePagesLoseAnEvent(s: Stream)
    requires Inv(s) && s.phase == Replaying && !PageIsSafe(s, ReplayPage) && (s.since == 0 || s.since in s.events)
    ensures !StaysComplete(Apply(s, ReplayPage))
  {
    hide Upto, Increasing, Run, PageIsSafe, Covers;
    var t := Apply(s, ReplayPage);
    assert s.sub.Some?;
    CappedPage(s);
    hide Apply, Complete;
    if s.sub.value.chan != [] {
      OneStep(t, ReadLive);
      ReadLeavesAGap(t);
      assert Orderly([ReadLive]);
    } else {
      var id := s.events[|s.events|-1] + 1;
      NextLeavesAGap(t, id);
      assert Orderly([Commit(id), Publish, ReadLive]);
    }
  }

  lemma CappedPage(s: Stream)
    requires Inv(s) && s.phase == Replaying && !PageIsSafe(s, ReplayPage) && (s.since == 0 || s.since in s.events)
    ensures var t := Apply(s, ReplayPage);
            && t.phase == Live && t.events == s.events && t.sub == s.sub && t.published == s.published && t.buffer == s.buffer
            && t.from == s.from && Complete(t) && Upto(t.events, t.since) < t.sub.value.first && t.since in t.events
  {
    hide Upto, Increasing;
    var u := Upto(s.events, s.since);
    var page := Page(s.events, s.since, s.limit);
    assert page == s.events[u..u + PAGE_CAP];
    hide Page;
    CoversMore(s.events, s.from, s.since, s.written, PAGE_CAP);
  }

  lemma ReadLeavesAGap(t: Stream)
    requires t.phase == Live && t.sub.Some? && t.sub.value.chan != [] && t.sub.value.first < |t.events|
    requires t.sub.value.chan[0] == t.events[t.sub.value.first]
    requires Complete(t) && Upto(t.events, t.since) < t.sub.value.first
    ensures !Complete(Apply(t, ReadLive))
  {
    hide Upto;
    UptoSplits(t.events, t.since);
    UptoMember(t.events, t.sub.value.first);
    hide Increasing;
    assert |Apply(t, ReadLive).written| == |t.written| + 1;
  }

  lemma OneStep(s: Stream, e: Event)
    ensures Run(s, [e]) == Apply(s, e)
  {
    hide Apply;
    assert [e][..0] == [] && Run(s, []) == s;
  }

  lemma NextLeavesAGap(t: Stream, id: nat)
    requires t.phase == Live && t.sub == Some(Sub([], false, t.published)) && t.published <= |t.events| && t.buffer > 0
    requires Complete(t) && Upto(t.events, t.since) < t.published && t.since in t.events && id > t.events[|t.events|-1]
    ensures !Complete(Run(t, [Commit(id), Publish, ReadLive]))
  {
    hide Upto, Run;
    CoversCommit(t.events, t.from, t.since, t.written, id);
    hide Covers, Increasing;
    Unfold3(t, [Commit(id), Publish, ReadLive]);
    ReadLeavesAGap(Apply(Apply(t, Commit(id)), Publish));
  }

  lemma Unfold3(s: Stream, es: seq<Event>)
    requires |es| == 3
    ensures Run(s, es) == Apply(Apply(Apply(s, es[0]), es[1]), es[2])
  {
    hide Apply;
    assert es[..2][..1] == es[..1] && es[..1][..0] == [];
    assert Run(s, es[..1]) == Apply(s, es[0]);
    assert Run(s, es[..2]) == Apply(Run(s, es[..1]), es[1]);
  }

  /** Beyond the cap, a longer backlog loses events as soon as one more arrives. */
  lemma LargeLimitsSkipEvents(s: Stream, id: nat)
    requires Fresh(s) && s.limit > PAGE_CAP && (s.from == 0 || s.from in s.events) && s.published == |s.events|
    requires Upto(s.events, s.from) + PAGE_CAP < |s.events| && id > s.events[|s.events|-1]
    ensures var end := Run(s, [Subscribe, ReplayPage, Commit(id), Publish, ReadLive]);
            var u := Upto(s.events, s.from);
            && end.written == s.events[u..u + PAGE_CAP] + [id]
            && s.from < s.events[u + PAGE_CAP] < end.since && s.events[u + PAGE_CAP] !in end.written
  {
    var u := Upto(s.events, s.from);
    LargeLimitRun(s, id);
    BeyondThePage(s.events, s.from);
    hide *;
    NotAmong(s.events[u..u + PAGE_CAP], id, s.events[u + PAGE_CAP]);
  }

  lemma LargeLimitRun(s: Stream, id: nat)
    requires Fresh(s) && s.limit > PAGE_CAP && (s.from == 0 || s.from in s.events) && s.published == |s.events|
    requires Upto(s.events, s.from) + PAGE_CAP < |s.events| && id > s.events[|s.events|-1]
    ensures var end := Run(s, [Subscribe, ReplayPage, Commit(id), Publish, ReadLive]);
            var u := Upto(s.events, s.from);
            end.written == s.events[u..u + PAGE_CAP] + [id] && end.since == id
  {
    hide Run, Apply, Upto, Increasing, Fresh;
    SubscribeIs(s);
    OneCappedPage(Apply(s, Subscribe));
    BeyondThePage(s.events, s.from);
    OneMoreLive(Apply(Apply(s, Subscribe), ReplayPage), id);
    Unfold5(s, [Subscribe, ReplayPage, Commit(id), Publish, ReadLive]);
  }

  lemma SubscribeIs(s: Stream)
    requires Fresh(s)
    ensures Apply(s, Subscribe) == s.(phase := Replaying, sub := Some(Sub([], false, s.published)))
    ensures Increasing(s.events) && s.buffer > 0 && s.written == [] && s.since == s.from
  {}

  lemma NotAmong(page: seq<nat>, id: nat, x: nat)
    requires x !in page && x != id
    ensures x !in page + [id]
  {}

  lemma OneMoreLive(s: Stream, id: nat)
    requires s.phase == Live && s.sub == Some(Sub([], false, s.published)) && s.published == |s.events| && s.buffer > 0
    requires id > s.since && s.events != [] && id > s.events[|s.events|-1]
    ensures var end := Apply(Apply(Apply(s, Commit(id)), Publish), ReadLive);
            end.written == s.written + [id] && end.since == id
  {
    AppendToEmpty(id);
  }

  lemma OneCappedPage(s: Stream)
    requires Increasing(s.events) && s.limit > PAGE_CAP && s.phase == Replaying && (s.since == 0 || s.since in s.events)
    requires s.written == [] && Upto(s.events, s.since) + PAGE_CAP < |s.events|
    ensures var u := Upto(s.events, s.since);
            Apply(s, ReplayPage) == s.(phase := Live, written := s.events[u..u + PAGE_CAP], since := s.events[u + PAGE_CAP - 1])
  {
    hide Increasing, Upto;
    var u := Upto(s.events, s.since);
    var page := Page(s.events, s.since, s.limit);
    assert page == s.events[u..u + PAGE_CAP];
    assert s.written + page == page;
  }

  lemma BeyondThePage(events: seq<nat>, from: nat)
    requires Increasing(events) && Upto(events, from) + PAGE_CAP < |events|
    ensures var u := Upto(events, from);
            && from < events[u + PAGE_CAP] <= events[|events|-1] && events[u + PAGE_CAP - 1] <= events[|events|-1]
            && events[u + PAGE_CAP] !in events[u..u + PAGE_CAP]
  {
    UptoSplits(events, from);
  }

  lemma AppendToEmpty(id: nat)
    ensures var none: seq<nat> := []; none + [id] == [id]
  {}

  lemma Unfold5(s: Stream, es: seq<Event>)
    requires |es| == 5
    ensures Run(s, es) == Apply(Apply(Apply(Apply(Apply(s, es[0]), es[1]), es[2]), es[3]), es[4])
  {
    hide Apply;
    assert es[..4][..3] == es[..3] && es[..3][..2] == es[..2] && es[..2][..1] == es[..1] && es[..1][..0] == [];
    assert Run(s, es[..1]) == Apply(s, es[0]);
    assert Run(s, es[..2]) == Apply(Run(s, es[..1]), es[1]);
    assert Run(s, es[..3]) == Apply(Run(s, es[..2]), es[2]);
    assert Run(s, es[..4]) == Apply(Run(s, es[..3]), es[3]);
  }

  /** Writing a page keeps what was written free of gaps, and an empty page means there is no more. */
  lemma CoversPage(events: seq<nat>, from: nat, since: nat, written: seq<nat>, limit: nat, page: seq<nat>)
    requires Covers(events, from, since, written) && limit > 0 && Upto(events, since) <= |events| && page == Page(events, since, limit)
    ensures |page| == Min(Min(limit, PAGE_CAP), |events| - Upto(events, since))
    ensures page != [] ==> page[|page|-1] in events && Upto(events, page[|page|-1]) == Upto(events, since) + |page|
    ensures page != [] ==> Covers(events, from, page[|page|-1], written + page)
  {
    hide Upto, Increasing;
    var u := Upto(events, since);
    if page != [] {
      CoversMore(events, from, since, written, |page|);
      assert page == events[u..u + |page|];
    }
  }

  /** The replay loop on its own, over a history that stands still. */
  method ReplayHistory(events: seq<nat>, from: nat, limit: nat) returns (ok: bool, written: seq<nat>, last: nat)
    requires Increasing(events) && limit > 0
    ensures Covers(events, from, last, written)
    ensures ok <==> from == 0 || from in events
    ensures !ok ==> written == []
    ensures ok ==> Upto(events, last) == if limit <= PAGE_CAP then |events| else Min(Upto(events, from) + PAGE_CAP, |events|)
  {
    written, last, ok := [], from, true;
    CoversNothing(events, from);
    hide Covers, Upto, Increasing, Page;
    var first := true;
    while true
      invariant ok && Covers(events, from, last, written) && Upto(events, last) <= |events|
      invariant if first then last == from && written == [] else (from == 0 || from in events) && last in events && limit <= PAGE_CAP
      decreases |events| - Upto(events, last)
    {
      if last > 0 && last !in events {
        ok := false;
        break;
      }
      var page := Page(events, last, limit);
      CoversPage(events, from, last, written, limit, page);
      if page == [] {
        break;
      }
      written := written + page;
      last := page[|page|-1];
      if |page| < limit {
        break;
      }
      first := false;
    }
  }

  lemma CoversNothing(events: seq<nat>, from: nat)
    requires Increasing(events)
    ensures Covers(events, from, from, []) && Upto(events, from) <= |events|
  {
    UptoSplits(events, from);
  }
}
