/** The durable runner: it polls an append-only event log until the turn's public state can
    be told, showing each event to an observer. */
module TurnRunner {
  import opened Options
  import opened EventFrames
  import opened FrameParser
  import opened StreamDelivery

  datatype TurnStatus = Accepted | Running | WaitingInput | WaitingApproval | Succeeded | Failed | Cancelled
  {
    predicate Deterministic() { !Accepted? && !Running? }
  }

  function StatusOf(kind: string): Option<TurnStatus> {
    match kind
    case "turn.accepted" => Some(Accepted)
    case "turn.running" => Some(Running)
    case "turn.waiting_input" => Some(WaitingInput)
    case "turn.waiting_approval" => Some(WaitingApproval)
    case "turn.succeeded" => Some(Succeeded)
    case "turn.failed" => Some(TurnStatus.Failed)
    case "turn.cancelled" => Some(Cancelled)
    case _ => None
  }

  datatype Projection = Projection(status: TurnStatus, dto: string, lastSequence: int)

  /** One turn of the loop: what the projection store answers if asked, whether the deadline
      has passed, and the log as the coordinator then reads it. */
  datatype Poll = Poll(projection: Option<Projection>, expired: bool, log: seq<Event>)

  datatype Outcome = Ready(dto: string, events: seq<Event>) | NotReady | Waiting

  // ---- What is read ----

  function LogAt(first: seq<Event>, polls: seq<Poll>, k: nat): seq<Event>
    requires k <= |polls|
  {
    if k == 0 then first else polls[k - 1].log
  }

  /** The log only grows, in strictly increasing sequence. */
  ghost predicate Growing(first: seq<Event>, polls: seq<Poll>) {
    && Increasing(first)
    && forall k | 0 <= k < |polls| :: Increasing(polls[k].log) && LogAt(first, polls, k) <= polls[k].log
  }

  function Numbered(log: seq<Event>): seq<Event> {
    Newer(log, 0)
  }

  /** The status told by the last event that tells one. */
  function Settled(events: seq<Event>): Option<TurnStatus> {
    if events == [] then None
    else
      var status := StatusOf(events[|events| - 1].kind);
      if status.Some? && status.value.Deterministic() then status else Settled(events[..|events| - 1])
  }

  predicate ReadyAt(events: seq<Event>, projection: Option<Projection>) {
    && Settled(events).Some?
    && projection.Some?
    && projection.value.status == Settled(events).value
    && projection.value.lastSequence >= LastSequence(events, 0)
  }

  predicate StopsAt(first: seq<Event>, polls: seq<Poll>, k: nat)
    requires k < |polls|
  {
    ReadyAt(Numbered(LogAt(first, polls, k)), polls[k].projection) || polls[k].expired
  }

  /** None of the first k polls ends the run. */
  predicate GoesOn(first: seq<Event>, polls: seq<Poll>, k: nat)
    requires k <= |polls|
  {
    k == 0 || (GoesOn(first, polls, k - 1) && !StopsAt(first, polls, k - 1))
  }

  // ---- The index ----

  ghost predicate Indexes(indexed: map<int, Event>, events: seq<Event>) {
    && (forall i | 0 <= i < |events| :: events[i].sequence in indexed && indexed[events[i].sequence] == events[i])
    && (forall q | q in indexed :: exists i :: 0 <= i < |events| && events[i].sequence == q)
  }

  lemma {:induction false} SomeKey(keys: set<int>)
    requires keys != {}
    ensures exists q :: q in keys
  {
    if forall q :: q !in keys {
      assert false;
    }
  }

  method Least(keys: set<int>) returns (low: int)
    requires keys != {}
    ensures low in keys && forall q | q in keys :: low <= q
  {
    SomeKey(keys);
    var first :| first in keys;
    low := first;
    var rest := keys - {low};
    while rest != {}
      invariant rest <= keys && low in keys
      invariant forall q | q in keys && q !in rest :: low <= q
      decreases rest
    {
      SomeKey(rest);
      var q :| q in rest;
      if q < low {
        low := q;
      }
      rest := rest - {q};
    }
  }

  /** The keys still to be listed are those of the events not listed yet. */
  ghost predicate Left(keys: set<int>, events: seq<Event>, k: nat) {
    && k <= |events|
    && (forall i | k <= i < |events| :: events[i].sequence in keys)
    && (forall q | q in keys :: exists i :: k <= i < |events| && events[i].sequence == q)
  }

  lemma {:induction false} NotDecreasing(events: seq<Event>, i: nat, j: nat)
    requires Increasing(events) && i <= j < |events|
    ensures events[i].sequence <= events[j].sequence
  {
  }

  lemma {:induction false} OnlyOne(events: seq<Event>, i: nat, j: nat)
    requires Increasing(events) && i <= j < |events|
    ensures events[i].sequence == events[j].sequence ==> i == j
  {
  }

  lemma {:induction false} LeastIsNext(keys: set<int>, events: seq<Event>, k: nat, low: int)
    requires Increasing(events) && Left(keys, events, k)
    requires low in keys && forall q | q in keys :: low <= q
    ensures k < |events| && low == events[k].sequence && Left(keys - {low}, events, k + 1)
  {
    var i :| k <= i < |events| && events[i].sequence == low;
    assert events[k].sequence in keys;
    NotDecreasing(events, k, i);
    OnlyOne(events, k, i);
    var left := keys - {low};
    forall j | k + 1 <= j < |events|
      ensures events[j].sequence in left
    {
      assert events[k].sequence < events[j].sequence;
    }
    forall q | q in left
      ensures exists j :: k + 1 <= j < |events| && events[j].sequence == q
    {
      var j :| k <= j < |events| && events[j].sequence == q;
      assert j != k;
    }
  }

  lemma {:induction false} NextLeft(keys: set<int>, events: seq<Event>, k: nat)
    requires Left(keys, events, k)
    ensures k == |events| || events[k].sequence in keys
  {
  }

  /** The indexed events by sequence. */
  method InOrder(indexed: map<int, Event>, ghost events: seq<Event>) returns (ordered: seq<Event>)
    requires Indexes(indexed, events) && Increasing(events)
    ensures ordered == events
  {
    ordered := [];
    var keys := indexed.Keys;
    assert Left(keys, events, 0);
    while keys != {}
      invariant keys <= indexed.Keys && Left(keys, events, |ordered|)
      invariant |ordered| <= |events| && ordered == events[..|ordered|]
      decreases keys
    {
      var low := Least(keys);
      LeastIsNext(keys, events, |ordered|, low);
      ordered := ordered + [indexed[low]];
      keys := keys - {low};
    }
    NextLeft(keys, events, |ordered|);
  }

  lemma {:induction false} IndexMore(indexed: map<int, Event>, events: seq<Event>, e: Event)
    requires Indexes(indexed, events) && AllBefore(events, e)
    ensures Indexes(indexed[e.sequence := e], events + [e])
  {
    var all, more := events + [e], indexed[e.sequence := e];
    assert all[|events|] == e;
    forall q | q in more
      ensures exists i :: 0 <= i < |all| && all[i].sequence == q
    {
      if q != e.sequence {
        var i :| 0 <= i < |events| && events[i].sequence == q;
        assert all[i].sequence == q;
      }
    }
  }

  predicate AllBefore(events: seq<Event>, e: Event) {
    forall i | 0 <= i < |events| :: events[i].sequence < e.sequence
  }

  /** Adds the events one by one. */
  method IndexAll(indexed: map<int, Event>, ghost events: seq<Event>, more: seq<Event>)
    returns (grown: map<int, Event>)
    requires Indexes(indexed, events) && Increasing(events + more)
    ensures Indexes(grown, events + more)
  {
    grown := indexed;
    assert events + more[..0] == events;
    for k := 0 to |more|
      invariant Indexes(grown, events + more[..k])
    {
      var event := more[k];
      assert AllBefore(events + more[..k], event) by {
        assert (events + more)[|events| + k] == event;
        assert forall i | 0 <= i < |events| + k :: (events + more[..k])[i] == (events + more)[i];
      }
      IndexMore(grown, events + more[..k], event);
      assert more[..k + 1] == more[..k] + [event];
      assert events + more[..k] + [event] == events + more[..k + 1];
      grown := grown[event.sequence := event];
    }
    assert more[..|more|] == more;
  }

  // ---- Telling the status ----

  lemma {:induction false} SettledSkips(events: seq<Event>, k: nat)
    requires k < |events|
    ensures var status := StatusOf(events[k].kind);
      Settled(events[..k + 1]) == if status.Some? && status.value.Deterministic() then status else Settled(events[..k])
  {
    assert events[..k + 1][..k] == events[..k];
  }

  method DeterministicStatus(indexed: map<int, Event>, ghost events: seq<Event>) returns (status: Option<TurnStatus>)
    requires Indexes(indexed, events) && Increasing(events)
    ensures status == Settled(events)
  {
    var ordered := InOrder(indexed, events);
    var k := |ordered|;
    assert events[..|events|] == events;
    while k > 0
      invariant 0 <= k <= |events| && Settled(events) == Settled(events[..k])
    {
      k := k - 1;
      SettledSkips(events, k);
      status := StatusOf(ordered[k].kind);
      if status.Some? && status.value.Deterministic() {
        return;
      }
    }
    status := None;
  }

  // ---- New events ----

  lemma {:induction false} NewerSubset(events: seq<Event>, cursor: int, e: Event)
    ensures e in Newer(events, cursor) <==> e in events && e.sequence > cursor
  {
    if events != [] {
      NewerSubset(events[1..], cursor, e);
    }
  }

  lemma {:induction false} NewerIncreasing(events: seq<Event>, cursor: int)
    requires Increasing(events)
    ensures Increasing(Newer(events, cursor))
  {
    if events != [] {
      TailIncreases(events, 1);
      NewerIncreasing(events[1..], cursor);
      var rest := Newer(events[1..], cursor);
      forall j | 0 <= j < |rest|
        ensures rest[j].sequence > events[0].sequence
      {
        NewerSubset(events[1..], cursor, rest[j]);
        var i :| 0 <= i < |events[1..]| && events[1..][i] == rest[j];
        assert events[i + 1] == rest[j];
      }
    }
  }

  lemma {:induction false} NewerTwice(events: seq<Event>, a: int, b: int)
    ensures Newer(Newer(events, a), b) == Newer(events, if a < b then b else a)
  {
    if events != [] {
      NewerTwice(events[1..], a, b);
      var head := if events[0].sequence > a then [events[0]] else [];
      NewerAppend(head, Newer(events[1..], a), b);
      assert head != [] ==> head[1..] == [];
    }
  }

  lemma {:induction false} LastBounds(events: seq<Event>, e: Event)
    requires Increasing(events) && e in events
    ensures e.sequence <= LastSequence(events, 0)
  {
  }

  /** After a cursor at the last event seen, the grown log has exactly the new events. */
  lemma {:induction false} StreamsNew(log: seq<Event>, grown: seq<Event>)
    requires Increasing(log) && Increasing(grown) && log <= grown
    ensures Numbered(grown) == Numbered(log) + Newer(grown, LastSequence(Numbered(log), 0))
  {
    var more := grown[|log|..];
    var cursor := LastSequence(Numbered(log), 0);
    assert grown == log + more;
    NewerIncreasing(log, 0);
    NewerAppend(log, more, 0);
    NewerAppend(log, more, cursor);
    forall e | e in log
      ensures e.sequence <= cursor
    {
      NewerSubset(log, 0, e);
      if e.sequence > 0 {
        LastBounds(Numbered(log), e);
      }
    }
    NothingNewer(log, cursor);
    SameNewer(more, cursor, log, grown);
  }

  lemma {:induction false} NothingNewer(events: seq<Event>, cursor: int)
    requires forall e | e in events :: e.sequence <= cursor
    ensures Newer(events, cursor) == []
  {
    if events != [] {
      NothingNewer(events[1..], cursor);
    }
  }

  lemma {:induction false} SameNewer(more: seq<Event>, cursor: int, log: seq<Event>, grown: seq<Event>)
    requires Increasing(grown) && grown == log + more && cursor == LastSequence(Numbered(log), 0)
    ensures Newer(more, cursor) == Newer(more, 0)
  {
    if Numbered(log) != [] {
      var last := Numbered(log)[|Numbered(log)| - 1];
      NewerSubset(log, 0, last);
      var i :| 0 <= i < |log| && log[i] == last;
      forall j | 0 <= j < |more|
        ensures more[j].sequence > cursor && more[j].sequence > 0
      {
        assert grown[i] == last && grown[|log| + j] == more[j];
      }
      NewerAll(more, cursor);
      NewerAll(more, 0);
    }
  }

  // ---- The runner ----

  lemma {:induction false} NewerStep(log: seq<Event>, k: nat, cursor: int, got: seq<Event>)
    requires k < |log|
    ensures got + Newer(log[k..], cursor)
         == (got + if log[k].sequence > cursor then [log[k]] else []) + Newer(log[k + 1..], cursor)
  {
    assert log[k..][0] == log[k] && log[k..][1..] == log[k + 1..];
  }

  lemma {:induction false} NewerSnoc(events: seq<Event>, e: Event, cursor: int)
    ensures Newer(events + [e], cursor) == Newer(events, cursor) + if e.sequence > cursor then [e] else []
  {
    NewerAppend(events, [e], cursor);
    assert [e][1..] == [];
  }

  /** The coordinator's stream: the events of the log past the cursor, each shown to the
      observer when it is past the request's own cursor. */
  method StreamLog(log: seq<Event>, cursor: int, after: int) returns (captured: seq<Event>, shown: seq<Event>)
    ensures captured == Newer(log, cursor) && shown == Newer(captured, after)
  {
    captured, shown := [], [];
    assert log[0..] == log;
    for k := 0 to |log|
      invariant Newer(log, cursor) == captured + Newer(log[k..], cursor)
      invariant shown == Newer(captured, after)
    {
      var event := log[k];
      NewerStep(log, k, cursor, captured);
      if event.sequence > cursor {
        NewerSnoc(captured, event, after);
        captured := captured + [event];
        if event.sequence > after {
          shown := shown + [event];
        }
      }
    }
    assert log[|log|..] == [];
  }

  /** One more read of the log. */
  lemma {:induction false} ReadMore(first: seq<Event>, polls: seq<Poll>, k: nat, after: int)
    requires Growing(first, polls) && k < |polls|
    ensures var events := Numbered(LogAt(first, polls, k)); var captured := Newer(polls[k].log, LastSequence(events, 0));
      && Numbered(LogAt(first, polls, k + 1)) == events + captured
      && Newer(events + captured, after) == Newer(events, after) + Newer(captured, after)
      && Increasing(events + captured)
  {
    var events := Numbered(LogAt(first, polls, k));
    assert Increasing(LogAt(first, polls, k));
    StreamsNew(LogAt(first, polls, k), polls[k].log);
    NewerAppend(events, Newer(polls[k].log, LastSequence(events, 0)), after);
    NewerIncreasing(polls[k].log, 0);
  }

  /** The numbered events of the first read, by sequence. */
  method IndexNumbered(log: seq<Event>) returns (indexed: map<int, Event>)
    requires Increasing(log)
    ensures Indexes(indexed, Numbered(log))
  {
    var numbered, _ := StreamLog(log, 0, 0);
    NewerIncreasing(log, 0);
    assert [] + numbered == numbered;
    indexed := IndexAll(map[], [], numbered);
  }

  /** Shows the indexed events past the request's cursor. */
  method ObserveAfter(indexed: map<int, Event>, ghost events: seq<Event>, after: int) returns (shown: seq<Event>)
    requires Indexes(indexed, events) && Increasing(events)
    ensures shown == Newer(events, after)
  {
    var ordered := InOrder(indexed, events);
    shown := [];
    for k := 0 to |ordered|
      invariant shown == Newer(ordered[..k], after)
    {
      assert ordered[..k + 1] == ordered[..k] + [ordered[k]];
      NewerSnoc(ordered[..k], ordered[k], after);
      if ordered[k].sequence > after {
        shown := shown + [ordered[k]];
      }
    }
    assert ordered[..|ordered|] == ordered;
  }

  /** The public result, when the projection has caught up with the events. */
  method TryProject(indexed: map<int, Event>, ghost events: seq<Event>, cursor: int, projection: Option<Projection>)
    returns (ready: Option<Outcome>)
    requires Indexes(indexed, events) && Increasing(events) && cursor == LastSequence(events, 0)
    ensures ready == if ReadyAt(events, projection) then Some(Ready(projection.value.dto, events)) else None
  {
    var status := DeterministicStatus(indexed, events);
    if status.None? || projection.None? || projection.value.status != status.value
       || projection.value.lastSequence < cursor {
      return None;
    }
    var ordered := InOrder(indexed, events);
    ready := Some(Ready(projection.value.dto, ordered));
  }

  /** Reads the log again from the cursor. */
  method ReadAgain(indexed: map<int, Event>, ghost events: seq<Event>, cursor: int, log: seq<Event>, after: int)
    returns (grown: map<int, Event>, last: int, more: seq<Event>)
    requires Indexes(indexed, events) && Increasing(events + Newer(log, cursor)) && cursor == LastSequence(events, 0)
    ensures Indexes(grown, events + Newer(log, cursor)) && last == LastSequence(events + Newer(log, cursor), 0)
    ensures more == Newer(Newer(log, cursor), after)
  {
    var captured;
    captured, more := StreamLog(log, cursor, after);
    grown := IndexAll(indexed, events, captured);
    assert captured == [] ==> events + captured == events;
    last := if captured == [] then cursor else captured[|captured| - 1].sequence;
  }

  /** Every event of the log read so far that is past the request's cursor is shown exactly
      once, in order; the loop stops at the first poll whose projection has caught up with
      the events or whose deadline has passed. */
  method Execute(first: seq<Event>, polls: seq<Poll>, after: int)
    returns (outcome: Outcome, shown: seq<Event>, polled: nat)
    requires Growing(first, polls)
    ensures polled <= |polls| && shown == Newer(Numbered(LogAt(first, polls, polled)), after)
    ensures GoesOn(first, polls, polled)
    ensures outcome.Waiting? <==> polled == |polls|
    ensures polled < |polls| ==> StopsAt(first, polls, polled)
    ensures outcome.Ready? <==>
      polled < |polls| && ReadyAt(Numbered(LogAt(first, polls, polled)), polls[polled].projection)
    ensures outcome.Ready? ==>
      outcome == Ready(polls[polled].projection.value.dto, Numbered(LogAt(first, polls, polled)))
  {
    NewerIncreasing(first, 0);
    ghost var events := Numbered(first);
    var indexed := IndexNumbered(first);
    shown := ObserveAfter(indexed, events, after);
    var ordered := InOrder(indexed, events);
    var cursor := if ordered == [] then 0 else ordered[|ordered| - 1].sequence;
    polled := 0;
    for k := 0 to |polls|
      invariant polled == k && events == Numbered(LogAt(first, polls, k))
      invariant Increasing(events) && Indexes(indexed, events) && cursor == LastSequence(events, 0)
      invariant shown == Newer(events, after)
      invariant GoesOn(first, polls, k)
    {
      var poll := polls[k];
      var ready := TryProject(indexed, events, cursor, poll.projection);
      if ready.Some? {
        return ready.value, shown, polled;
      }
      if poll.expired {
        return NotReady, shown, polled;
      }
      ReadMore(first, polls, k, after);
      ghost var captured := Newer(poll.log, cursor);
      var more;
      indexed, cursor, more := ReadAgain(indexed, events, cursor, poll.log, after);
      assert shown + more == Newer(events + captured, after);
      assert events + captured == Numbered(LogAt(first, polls, k + 1));
      events := events + captured;
      shown := shown + more;
      polled := polled + 1;
    }
    outcome := Waiting;
  }

  /** The frames of the shown events, printed, cut into any chunks and parsed, reach the
      client as exactly the frames of the log's events past its cursor. */
  lemma {:induction false} RunReachesClient(codec: Codec, log: seq<Event>, after: nat, chunks: seq<string>)
    requires codec.Lawful() && Increasing(log)
    requires var shown := Newer(Numbered(log), after);
      AllPrintable(AllFrames(shown)) && Concat(chunks) == Stream(codec, AllFrames(shown))
    ensures var frames := Frames(codec, Raws(Normalized(chunks)));
      && Deliver(frames, after) == AllTrimmed(AllFrames(Newer(log, after)))
      && CursorAfter(frames, after) == LastSequence(Newer(log, after), after)
  {
    NewerTwice(log, 0, after);
    NewerIncreasing(log, after);
    var shown := Newer(log, after);
    forall i | 0 <= i < |shown|
      ensures shown[i].sequence > after
    {
      NewerSubset(log, after, shown[i]);
    }
    DeliveredExactly(codec, shown, chunks, after);
  }
}
