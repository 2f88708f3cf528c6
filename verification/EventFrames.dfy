/** Durable events as frames of a text/event-stream, the way the server prints them. */
module EventFrames {
  import opened Options
  import opened JsonValues
  import opened Decimal
  import opened TextLines

  type Payload = map<string, Json>

  datatype Event = Event(sequence: nat, kind: string, payload: Payload)

  datatype Frame = Frame(id: nat, event: string, data: Payload)

  const TERMINAL_ERROR: Payload :=
    map["code" := JText("assistant_internal_error"), "message" := JText("持久化轮次结束，但没有可恢复的结果")]

  function FramesOf(e: Event): (frames: seq<Frame>)
    ensures 1 <= |frames| <= 2
    ensures forall i | 0 <= i < |frames| :: frames[i].id == e.sequence
    ensures |frames| == 2 ==> frames[1] == Frame(e.sequence, "done", map[])
  {
    if e.kind in ["turn.accepted", "turn.running", "run.queued"] then
      [Frame(e.sequence, "turn_state", e.payload)]
    else if e.kind == "assistant.message" then
      var whole := "message" in e.payload && e.payload["message"].JObject?;
      [Frame(e.sequence, "message_completed", if whole then e.payload else map["message" := JObject(e.payload)])]
    else if e.kind in ["turn.waiting_input", "turn.waiting_approval"] then
      [Frame(e.sequence, "turn_state", e.payload), Frame(e.sequence, "done", map[])]
    else if e.kind == "turn.succeeded" then
      [Frame(e.sequence, "done", map[])]
    else if e.kind in ["turn.failed", "turn.cancelled"] then
      [Frame(e.sequence, "error", TERMINAL_ERROR), Frame(e.sequence, "done", map[])]
    else if e.kind == "done" then
      [Frame(e.sequence, "done", map[])]
    else
      [Frame(e.sequence, e.kind, e.payload)]
  }

  function AllFrames(events: seq<Event>): seq<Frame> {
    if events == [] then [] else FramesOf(events[0]) + AllFrames(events[1..])
  }

  lemma {:induction false} AllFramesAppend(a: seq<Event>, b: seq<Event>)
    ensures AllFrames(a + b) == AllFrames(a) + AllFrames(b)
  {
    if a == [] {
      assert a + b == b;
    } else {
      assert (a + b)[1..] == a[1..] + b;
      AllFramesAppend(a[1..], b);
    }
  }

  // ---- Printing ----

  predicate OneLine(s: string) {
    forall i | 0 <= i < |s| :: s[i] != '\n' && s[i] != '\r'
  }

  /** JSON text for objects, and its parser. */
  datatype Codec = Codec(encode: Payload -> string, decode: string -> Option<Json>)
  {
    /** What is printed parses back, and has no raw line ends. */
    ghost predicate Lawful() {
      forall p :: decode(encode(p)) == Some(JObject(p)) && OneLine(encode(p))
    }
  }

  predicate Printable(f: Frame) {
    Strip(f.event) != "" && OneLine(Strip(f.event))
  }

  function Lines(codec: Codec, f: Frame): seq<string> {
    ["id: " + Digits(f.id), "event: " + Strip(f.event), "data: " + codec.encode(f.data)]
  }

  /** The frame as text, or nothing when it cannot be printed. */
  function Render(codec: Codec, f: Frame): Option<string> {
    if Printable(f) then Some(Join(Lines(codec, f)) + "\n\n") else None
  }

  function Stream(codec: Codec, frames: seq<Frame>): string
    requires forall i | 0 <= i < |frames| :: Printable(frames[i])
  {
    if frames == [] then "" else Render(codec, frames[0]).value + Stream(codec, frames[1..])
  }
}
