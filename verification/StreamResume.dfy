/** Responses as the server ends them, connections that break, and what reconnecting makes
    up for. */
module StreamResume {
  import opened JsonValues
  import opened TextLines
  import opened EventFrames
  import opened StreamDelivery

  // ---- A whole response ----

  /** The run behind a response returns or raises. */
  datatype Ending = Returned | Raised

  const INTERNAL_ERROR: Payload :=
    map["code" := JText("assistant_internal_error"),
        "message" := JText("助手暂时不可用，请使用相同 request_id 重试。")]

  predicate Terminal(frames: seq<Frame>) {
    exists i | 0 <= i < |frames| :: frames[i].event == "done" || frames[i].event == "error"
  }

  /** The frame the server adds under the request's own cursor: an error when the run
      raised, and done when it returned without a frame that says so. */
  function Closing(frames: seq<Frame>, cursor: nat, ending: Ending): seq<Frame> {
    match ending
    case Raised => [Frame(cursor, "error", INTERNAL_ERROR)]
    case Returned => if Terminal(frames) then [] else [Frame(cursor, "done", map[])]
  }

  function Response(events: seq<Event>, cursor: nat, ending: Ending): seq<Frame> {
    var frames := AllFrames(Newer(events, cursor));
    frames + Closing(frames, cursor, ending)
  }

  /** What a client with this cursor shows of the response. */
  function ShownFrom(events: seq<Event>, cursor: nat, ending: Ending): seq<Frame> {
    Deliver(AllTrimmed(Response(events, cursor, ending)), cursor)
  }

  lemma {:induction false} SplitAt(events: seq<Event>, k: nat, cursor: nat)
    requires Increasing(events) && k <= |events|
    requires (k > 0 ==> events[k - 1].sequence <= cursor) && (k < |events| ==> events[k].sequence > cursor)
    ensures forall i | 0 <= i < k :: events[i].sequence <= cursor
    ensures forall i | k <= i < |events| :: events[i].sequence > cursor
  {
    forall i | 0 <= i < k
      ensures events[i].sequence <= cursor
    {
      assert i < k - 1 ==> events[i].sequence < events[k - 1].sequence;
    }
    forall i | k <= i < |events|
      ensures events[i].sequence > cursor
    {
      assert k < i ==> events[k].sequence < events[i].sequence;
    }
  }

  lemma {:induction false} NewerFrom(events: seq<Event>, k: nat, cursor: nat)
    requires k <= |events|
    requires forall i | 0 <= i < k :: events[i].sequence <= cursor
    requires forall i | k <= i < |events| :: events[i].sequence > cursor
    ensures Newer(events, cursor) == events[k..]
  {
    if k == 0 {
      NewerAll(events, cursor);
    } else {
      NewerFrom(events[1..], k - 1, cursor);
      assert events[1..][k - 1..] == events[k..];
    }
  }

  lemma {:induction false} CloserTrimmed(frames: seq<Frame>, cursor: nat, ending: Ending)
    ensures AllTrimmed(Closing(frames, cursor, ending)) == Closing(frames, cursor, ending)
  {
    StripEnds("done");
    StripEnds("error");
  }

  lemma {:induction false} ClosingShown(frames: seq<Frame>, cursor: nat, ending: Ending, now: nat)
    requires now >= cursor
    ensures Deliver(Closing(frames, cursor, ending), now) == if now == cursor then Closing(frames, cursor, ending) else []
  {
    var closing := Closing(frames, cursor, ending);
    if closing != [] {
      assert closing == [closing[0]] && closing[1..] == [];
    }
  }

  /** Replayed events are all shown, and the added frame only after none of them. */
  lemma {:induction false} ResponseShown(events: seq<Event>, k: nat, cursor: nat, ending: Ending)
    requires Increasing(events) && k <= |events|
    requires (k > 0 ==> events[k - 1].sequence <= cursor) && (k < |events| ==> events[k].sequence > cursor)
    ensures ShownFrom(events, cursor, ending)
         == AllTrimmed(AllFrames(events[k..])) + if k == |events| then Closing([], cursor, ending) else []
  {
    var tail := events[k..];
    var frames := AllFrames(tail);
    SplitAt(events, k, cursor);
    NewerFrom(events, k, cursor);
    TailIncreases(events, k);
    EveryFrameShown(tail, cursor);
    CloserTrimmed(frames, cursor, ending);
    TrimmedAppend(frames, Closing(frames, cursor, ending));
    DeliverAppend(AllTrimmed(frames), Closing(frames, cursor, ending), cursor);
    ClosingShown(frames, cursor, ending, LastSequence(tail, cursor));
  }

  /** The added frame is shown exactly when the response brought nothing newer. */
  lemma {:induction false} ClosingFrameShownIff(events: seq<Event>, after: nat, ending: Ending)
    requires Increasing(events) && AllAfter(events, after)
    ensures var shown := ShownFrom(events, after, ending);
      && AllTrimmed(AllFrames(events)) <= shown
      && (|shown| > |AllTrimmed(AllFrames(events))| <==> events == [])
  {
    ResponseShown(events, 0, after, ending);
    assert events[0..] == events;
    assert events == [] ==> !Terminal([]);
  }

  // ---- Connections that break ----

  /** What has arrived when the connection breaks j frames into event k. */
  function Received(events: seq<Event>, k: nat, j: nat): seq<Frame>
    requires k < |events| && j < |FramesOf(events[k])|
  {
    AllFrames(events[..k]) + FramesOf(events[k])[..j]
  }

  lemma {:induction false} ReceivedCursor(events: seq<Event>, after: nat, k: nat, j: nat)
    requires Increasing(events) && AllAfter(events, after) && k < |events| && j < |FramesOf(events[k])|
    ensures var got := AllTrimmed(Received(events, k, j));
      && Deliver(got, after) == got
      && CursorAfter(got, after) == if j == 0 then LastSequence(events[..k], after) else events[k].sequence
  {
    var whole, part := AllFrames(events[..k]), FramesOf(events[k])[..j];
    EveryFrameShown(events[..k], after);
    TrimmedAppend(whole, part);
    var cursor := LastSequence(events[..k], after);
    DeliverAppend(AllTrimmed(whole), AllTrimmed(part), after);
    if j == 0 {
      assert AllTrimmed(part) == [];
    } else {
      var f := Trimmed(FramesOf(events[k])[0]);
      assert AllTrimmed(part) == [f] && [f][1..] == [];
      assert Deliver([f], cursor) == [f];
    }
  }

  /** The cursor the client asks with next: the last one it was told by its read loop,
      which tells none when reading fails. */
  function NextCursor(got: seq<Frame>, after: nat, fails: bool): nat {
    if fails then after else CursorAfter(got, after)
  }

  lemma {:induction false} FramesAround(events: seq<Event>, k: nat)
    requires k < |events|
    ensures AllFrames(events) == AllFrames(events[..k]) + AllFrames(events[k..])
    ensures AllFrames(events[k..]) == FramesOf(events[k]) + AllFrames(events[k + 1..])
  {
    assert events == events[..k] + events[k..] && events[k..][1..] == events[k + 1..];
    AllFramesAppend(events[..k], events[k..]);
  }

  lemma {:induction false} Regroup<T>(a: seq<T>, b: seq<T>, c: seq<T>, d: seq<T>)
    ensures a + ((b + c) + d) == a + b + c + d
  {
  }

  lemma {:induction false} TwoFrames(e: Event)
    requires |FramesOf(e)| == 2
    ensures FramesOf(e) == FramesOf(e)[..1] + [Frame(e.sequence, "done", map[])]
  {
    assert FramesOf(e)[1] == Frame(e.sequence, "done", map[]);
  }

  lemma {:induction false} SecondLost(events: seq<Event>, k: nat)
    requires k < |events| && |FramesOf(events[k])| == 2
    ensures AllFrames(events)
         == Received(events, k, 1) + [Frame(events[k].sequence, "done", map[])] + AllFrames(events[k + 1..])
  {
    FramesAround(events, k);
    TwoFrames(events[k]);
    Regroup(AllFrames(events[..k]), FramesOf(events[k])[..1], [Frame(events[k].sequence, "done", map[])],
            AllFrames(events[k + 1..]));
  }

  lemma {:induction false} LostSecond(events: seq<Event>, k: nat)
    requires k < |events| && |FramesOf(events[k])| == 2
    ensures AllTrimmed(AllFrames(events))
         == AllTrimmed(Received(events, k, 1)) + [Frame(events[k].sequence, "done", map[])]
            + AllTrimmed(AllFrames(events[k + 1..]))
  {
    var got, done, rest := Received(events, k, 1), [Frame(events[k].sequence, "done", map[])], AllFrames(events[k + 1..]);
    SecondLost(events, k);
    TrimmedAppend(got + done, rest);
    TrimmedAppend(got, done);
    StripEnds("done");
    assert AllTrimmed(done) == done;
  }

  /** After a break between events, asking with the cursor brings the rest. */
  lemma {:induction false} ResumedBetween(events: seq<Event>, after: nat, k: nat, ending: Ending)
    requires Increasing(events) && AllAfter(events, after) && k < |events|
    ensures var got := AllTrimmed(Received(events, k, 0));
      got + ShownFrom(events, CursorAfter(got, after), ending) == AllTrimmed(AllFrames(events))
  {
    ReceivedCursor(events, after, k, 0);
    var cursor := LastSequence(events[..k], after);
    assert k > 0 ==> cursor == events[k - 1].sequence && cursor < events[k].sequence;
    ResponseShown(events, k, cursor, ending);
    FramesAround(events, k);
    assert Received(events, k, 0) == AllFrames(events[..k]);
    TrimmedAppend(AllFrames(events[..k]), AllFrames(events[k..]));
  }

  /** After a break between the two frames of one event, the second comes again only as the
      frame added to an answer that has nothing newer. */
  lemma {:induction false} ResumedInside(events: seq<Event>, after: nat, k: nat, ending: Ending)
    requires Increasing(events) && AllAfter(events, after) && k < |events| && |FramesOf(events[k])| == 2
    ensures var got := AllTrimmed(Received(events, k, 1));
      got + ShownFrom(events, CursorAfter(got, after), ending) == AllTrimmed(AllFrames(events))
      <==> ending.Returned? && k + 1 == |events|
  {
    var got := AllTrimmed(Received(events, k, 1));
    var cursor := events[k].sequence;
    var last := Frame(cursor, "done", map[]);
    var rest := AllTrimmed(AllFrames(events[k + 1..]));
    ReceivedCursor(events, after, k, 1);
    assert k + 1 < |events| ==> cursor < events[k + 1].sequence;
    ResponseShown(events, k + 1, cursor, ending);
    LostSecond(events, k);
    var shown := ShownFrom(events, cursor, ending);
    if k + 1 < |events| {
      assert |got + shown| < |got + [last] + rest|;
    } else {
      assert rest == [] && shown == Closing([], cursor, ending);
      assert (got + [last] + rest)[|got|] == last && (got + shown)[|got|] == shown[0];
      assert !Terminal([]);
    }
  }

  lemma {:induction false} NotTwice<T>(got: seq<T>, all: seq<T>)
    ensures got + all == all <==> got == []
  {
    assert |got + all| == |got| + |all|;
  }

  lemma {:induction false} NothingReceived(events: seq<Event>, k: nat, j: nat)
    requires k < |events| && j < |FramesOf(events[k])|
    ensures AllTrimmed(Received(events, k, j)) == [] <==> k == 0 && j == 0
  {
    if k > 0 {
      assert events[..k][0] == events[0];
    }
  }

  /** Asking again with the old cursor shows everything, so nothing may have been shown. */
  lemma {:induction false} ResumedAnew(events: seq<Event>, after: nat, k: nat, j: nat, ending: Ending)
    requires Increasing(events) && AllAfter(events, after) && k < |events| && j < |FramesOf(events[k])|
    ensures ShownFrom(events, after, ending) == AllTrimmed(AllFrames(events))
    ensures AllTrimmed(Received(events, k, j)) + ShownFrom(events, after, ending) == AllTrimmed(AllFrames(events))
       <==> k == 0 && j == 0
  {
    ResponseShown(events, 0, after, ending);
    assert events[0..] == events;
    NotTwice(AllTrimmed(Received(events, k, j)), AllTrimmed(AllFrames(events)));
    NothingReceived(events, k, j);
  }

  /** Something of every broken response is still to come. */
  lemma {:induction false} BreakLosesSome(events: seq<Event>, k: nat, j: nat)
    requires k < |events| && j < |FramesOf(events[k])|
    ensures |AllTrimmed(Received(events, k, j))| < |AllTrimmed(AllFrames(events))|
  {
    FramesAround(events, k);
  }

  /** What the page shows after the break: it asks again only while no done or error frame
      was shown. */
  function ShownAfter(events: seq<Event>, got: seq<Frame>, after: nat, fails: bool, ending: Ending): seq<Frame> {
    if Terminal(got) then [] else ShownFrom(events, NextCursor(got, after, fails), ending)
  }

  /** The page shows, after what was shown, exactly what was not. */
  predicate MadeUp(events: seq<Event>, after: nat, k: nat, j: nat, fails: bool, ending: Ending)
    requires k < |events| && j < |FramesOf(events[k])|
  {
    var got := AllTrimmed(Received(events, k, j));
    got + ShownAfter(events, got, after, fails, ending) == AllTrimmed(AllFrames(events))
  }

  /** Behind a done or error frame nothing is made up for. Otherwise, when the body just
      ended, reconnecting makes up for it unless the break was between the two frames of an
      event that was not the last, or the run then raised; and when reading failed the old
      cursor is used, which does only if nothing had been shown. */
  lemma {:induction false} ResumeIff(events: seq<Event>, after: nat, k: nat, j: nat, fails: bool, ending: Ending)
    requires Increasing(events) && AllAfter(events, after) && k < |events| && j < |FramesOf(events[k])|
    ensures MadeUp(events, after, k, j, fails, ending)
       <==> && !Terminal(AllTrimmed(Received(events, k, j)))
            && if fails then k == 0 && j == 0 else j == 0 || (ending.Returned? && k + 1 == |events|)
  {
    var got := AllTrimmed(Received(events, k, j));
    if Terminal(got) {
      BreakLosesSome(events, k, j);
      assert got + [] == got;
    } else if fails {
      ResumedAnew(events, after, k, j, ending);
    } else if j == 0 {
      ResumedBetween(events, after, k, ending);
    } else {
      assert j == 1;
      ResumedInside(events, after, k, ending);
    }
  }

  lemma {:induction false} ErrorIsShown(events: seq<Event>, k: nat)
    requires k < |events| && |FramesOf(events[k])| == 2 && FramesOf(events[k])[0].event == "error"
    ensures Terminal(AllTrimmed(Received(events, k, 1)))
  {
    var whole, first := AllFrames(events[..k]), FramesOf(events[k])[..1];
    TrimmedAppend(whole, first);
    StripEnds("error");
    assert AllTrimmed(first) == [Trimmed(first[0])];
    var got := AllTrimmed(Received(events, k, 1));
    assert got[|AllTrimmed(whole)|] == Trimmed(first[0]);
  }

  /** A turn that failed or was cancelled and broke behind its error frame is one of these:
      the page never asks for the done frame. */
  lemma {:induction false} FailedTurnStaysOpen(events: seq<Event>, after: nat, k: nat, fails: bool, ending: Ending)
    requires Increasing(events) && AllAfter(events, after) && k < |events|
    requires |FramesOf(events[k])| == 2 && FramesOf(events[k])[0].event == "error"
    ensures !MadeUp(events, after, k, 1, fails, ending)
    ensures ShownAfter(events, AllTrimmed(Received(events, k, 1)), after, fails, ending) == []
  {
    ErrorIsShown(events, k);
    ResumeIff(events, after, k, 1, fails, ending);
  }
}
