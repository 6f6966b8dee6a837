/**
  The streamed transcript: the update batches of src/hooks/useAgentSession.ts, and the actions of
  packages/ui/openbuddy-ui-state/src/session-store.ts that grow, replace or edit the message list
  beneath them.

  Text is not written at once.  It waits in a buffer that is flushed a frame later, when text of
  the other kind arrives, or when the message ends; a new message discards it.
 */
module Transcript {
  import opened Common

  datatype Status = InProgress | Completed | Errored
  datatype Call = Call(
    id: string, title: string, kind: string, status: Status, startedAt: int, completedAt: Option<int>,
    content: seq<string>, rawInput: Option<string>, partial: bool, partialResult: Option<string>)
  datatype Part = Text(text: string) | Thought(text: string) | File(name: string) | Tool(call: Call)
  datatype Role = User | Assistant
  datatype Message = Message(id: string, role: Role, parts: seq<Part>, complete: bool)
  datatype Loc = Loc(message: nat, part: nat)

  /** Text not yet written: its kind, and whether a flush is scheduled. */
  datatype Buffer = Buffer(text: string, thought: bool, scheduled: bool)
  /** The shape each channel has locked onto in this turn; true for the legacy one. */
  datatype Shapes = Shapes(text: Option<bool>, thought: Option<bool>)
  datatype State = State(
    messages: seq<Message>, streaming: Option<string>, index: map<string, Loc>, bubble: Option<string>,
    buffer: Buffer, shapes: Shapes)

  /** A tool_call_update: a status, a new content and a partial result, each of them optional. */
  datatype Update = Update(
    id: string, status: Option<Status>, content: Option<seq<string>>, partial: Option<Option<string>>, now: int)
  /** A text part of a chunk; `freshId` is the id drawn if it begins a message. */
  datatype Piece = Piece(legacy: bool, text: string, freshId: string)

  datatype Op =
    | ToolCall(call: Call, freshId: string)
    | ToolCallUpdate(update: Update)
    | Chunk(thought: bool, pieces: seq<Piece>)
    | Begin(freshId: string)
    | Delta(thought: bool, text: string)
    | Flush
    | Finish
    | Abandon(placeholder: Option<string>)
    | ResetShapes
    | PushUser(freshId: string, parts: seq<Part>)
    | PopOptimistic
    | Replace(messages: seq<Message>)
    | Discard
    | Edit(messageId: string, markdown: string)

  const NO_TEXT: Buffer := Buffer("", false, false)
  const NO_SHAPES: Shapes := Shapes(None, None)
  const EMPTY: State := State([], None, map[], None, NO_TEXT, NO_SHAPES)

  // ---------- Looking things up ----------

  function FindMessage(ms: seq<Message>, id: string): (i: nat)
    ensures i <= |ms|
    ensures i < |ms| ==> ms[i].id == id
    ensures forall j :: 0 <= j < i ==> ms[j].id != id
  {
    if ms == [] || ms[0].id == id then 0 else 1 + FindMessage(ms[1..], id)
  }

  /** The place of the streaming message, or the length when there is none. */
  function StreamAt(s: State): (i: nat)
    ensures i <= |s.messages|
    ensures i < |s.messages| ==> s.streaming == Some(s.messages[i].id)
  {
    if s.streaming.Some? then FindMessage(s.messages, s.streaming.value) else |s.messages|
  }

  /** The tool call whose card is at a location, if a card is there. */
  function CardAt(ms: seq<Message>, loc: Loc): Option<string> {
    if loc.message < |ms| && loc.part < |ms[loc.message].parts| && ms[loc.message].parts[loc.part].Tool? then
      Some(ms[loc.message].parts[loc.part].call.id)
    else None
  }

  // ---------- Text ----------

  /** Text of the same kind as the last part is added to it; otherwise a new part is opened. */
  function Extended(parts: seq<Part>, thought: bool, text: string): seq<Part> {
    var n := |parts|;
    if n > 0 && parts[n - 1].Text? && !thought then parts[..n - 1] + [Text(parts[n - 1].text + text)]
    else if n > 0 && parts[n - 1].Thought? && thought then parts[..n - 1] + [Thought(parts[n - 1].text + text)]
    else parts + [if thought then Thought(text) else Text(text)]
  }

  /** Text written to the streaming message. */
  function Appended(s: State, thought: bool, text: string): State {
    var i := StreamAt(s);
    if i == |s.messages| then s
    else s.(messages := s.messages[i := s.messages[i].(parts := Extended(s.messages[i].parts, thought, text))])
  }

  function Flushed(s: State): State {
    var t := s.(buffer := Buffer("", s.buffer.thought, false));
    if s.buffer.text == "" then t else Appended(t, s.buffer.thought, s.buffer.text)
  }

  /** Text received: it joins the buffer, after a flush if that holds the other kind. */
  function Buffered(s: State, thought: bool, text: string): State {
    if s.streaming.None? then s
    else
      var t := if thought == s.buffer.thought then s else Flushed(s);
      t.(buffer := Buffer(t.buffer.text + text, thought, true))
  }

  function Discarded(s: State): State {
    s.(buffer := NO_TEXT)
  }

  function Begun(s: State, id: string): State {
    Discarded(s).(messages := s.messages + [Message(id, Assistant, [], false)], streaming := Some(id))
  }

  // ---------- Chunks of text ----------

  function ShapeOf(s: State, thought: bool): Option<bool> {
    if thought then s.shapes.thought else s.shapes.text
  }

  function WithShape(s: State, thought: bool, shape: Option<bool>): State {
    s.(shapes := if thought then s.shapes.(thought := shape) else s.shapes.(text := shape))
  }

  /** A part without text is passed over; the first other one decides the shape of the turn. */
  function Latched(shape: Option<bool>, pieces: seq<Piece>): Option<bool>
    decreases |pieces|
  {
    if pieces == [] then shape
    else Latched(if shape.None? && pieces[0].text != "" then Some(pieces[0].legacy) else shape, pieces[1..])
  }

  function Accepted(shape: Option<bool>, pieces: seq<Piece>): seq<Piece>
    decreases |pieces|
  {
    if pieces == [] then []
    else if pieces[0].text == "" then Accepted(shape, pieces[1..])
    else if shape.None? || shape.value == pieces[0].legacy then
      [pieces[0]] + Accepted(Some(pieces[0].legacy), pieces[1..])
    else Accepted(shape, pieces[1..])
  }

  /**
    The accepted parts of one chunk.  Whether a message was streaming is looked up once for the
    whole chunk, so without one every part begins a message of its own.
   */
  function Spread(s: State, thought: bool, open: bool, pieces: seq<Piece>): State
    decreases |pieces|
  {
    if pieces == [] then s
    else
      var t := if open then s else Begun(s, pieces[0].freshId);
      Spread(Buffered(t, thought, pieces[0].text), thought, open, pieces[1..])
  }

  function Chunked(s: State, thought: bool, pieces: seq<Piece>): State {
    var shape := ShapeOf(s, thought);
    Spread(WithShape(s, thought, Latched(shape, pieces)), thought, s.streaming.Some?, Accepted(shape, pieces))
  }

  // ---------- Cards ----------

  /** The card after an update; the completion time is set once, by the first final status. */
  function PatchedCall(c: Call, u: Update): Call {
    var final := u.status.Some? && u.status.value != InProgress && c.completedAt.None?;
    c.(status := if u.status.Some? then u.status.value else c.status,
       completedAt := if final then Some(u.now) else c.completedAt,
       content := if u.content.Some? then u.content.value else c.content,
       partial := c.partial || u.partial.Some?,
       partialResult := if u.partial.Some? then u.partial.value else c.partialResult)
  }

  function WithPart(s: State, loc: Loc, part: Part): State
    requires loc.message < |s.messages| && loc.part < |s.messages[loc.message].parts|
  {
    var m := s.messages[loc.message];
    s.(messages := s.messages[loc.message := m.(parts := m.parts[loc.part := part])])
  }

  /** Patches the card at a location; does nothing when no card is there. */
  function PatchedAt(s: State, loc: Loc, u: Update): State {
    if CardAt(s.messages, loc).Some? then
      WithPart(s, loc, Tool(PatchedCall(s.messages[loc.message].parts[loc.part].call, u)))
    else s
  }

  function IndexedUpdate(s: State, u: Update): State {
    if u.id in s.index then PatchedAt(s, s.index[u.id], u) else s
  }

  /** The card joins the written parts of the streaming message; the buffer is not flushed first. */
  function Carded(s: State, call: Call): State {
    var i := StreamAt(s);
    if i == |s.messages| then s
    else
      var m := s.messages[i];
      s.(messages := s.messages[i := m.(parts := m.parts + [Tool(call)])],
         index := s.index[call.id := Loc(i, |m.parts|)])
  }

  // ---------- The end of a message ----------

  function LastIncomplete(ms: seq<Message>): Option<string> {
    if ms == [] then None
    else
      var last := ms[|ms| - 1];
      if last.role == Assistant && !last.complete then Some(last.id) else LastIncomplete(ms[..|ms| - 1])
  }

  /** The message to finish: the streaming one, or else the last assistant message left incomplete. */
  function ToFinish(s: State): Option<string> {
    if StreamAt(s) < |s.messages| then s.streaming else LastIncomplete(s.messages)
  }

  /** Finishing keeps the parts; abandoning may fill an empty message with a placeholder. */
  function Ended(m: Message, target: Option<string>, placeholder: Option<string>): Message {
    if target != Some(m.id) then m
    else if placeholder.Some? && m.parts == [] then m.(complete := true, parts := [Text(placeholder.value)])
    else m.(complete := true)
  }

  function Finished(s: State, placeholder: Option<string>): State {
    var target := ToFinish(s);
    s.(streaming := None,
       messages := seq(|s.messages|, i requires 0 <= i < |s.messages| => Ended(s.messages[i], target, placeholder)))
  }

  function WithoutMessage(ms: seq<Message>, id: string): seq<Message> {
    if ms == [] then []
    else if ms[0].id == id then WithoutMessage(ms[1..], id)
    else [ms[0]] + WithoutMessage(ms[1..], id)
  }

  function NonText(parts: seq<Part>): seq<Part> {
    if parts == [] then []
    else NonText(parts[..|parts| - 1]) + (if parts[|parts| - 1].Text? then [] else [parts[|parts| - 1]])
  }

  /** An edit of an answer gathers its text behind all other parts; the index is left as it is. */
  function Edited(s: State, messageId: string, markdown: string): State {
    var i := FindMessage(s.messages, messageId);
    if i == |s.messages| || s.messages[i].role != Assistant then s
    else
      s.(messages := s.messages[i := s.messages[i].(parts := NonText(s.messages[i].parts) + [Text(markdown)])])
  }

  // ---------- Steps and runs ----------

  function Step(s: State, op: Op): State {
    match op
    case ToolCall(call, freshId) => Carded(if s.streaming.None? then Begun(s, freshId) else s, call)
    case ToolCallUpdate(u) => IndexedUpdate(s, u)
    case Chunk(thought, pieces) => Chunked(s, thought, pieces)
    case Begin(id) => Begun(s, id)
    case Delta(thought, text) => Buffered(s, thought, text)
    case Flush => Flushed(s)
    case Finish => Finished(Flushed(s), None)
    case Abandon(placeholder) => Finished(Flushed(s), placeholder)
    case ResetShapes => s.(shapes := NO_SHAPES)
    case PushUser(id, parts) =>
      s.(messages := s.messages + [Message(id, User, parts, true)], bubble := Some(id))
    case PopOptimistic =>
      if s.bubble.None? then s
      else s.(bubble := None, messages := WithoutMessage(s.messages, s.bubble.value), index := map[])
    case Replace(ms) => Discarded(s).(messages := ms, streaming := None, index := map[])
    case Discard => Discarded(s)
    case Edit(messageId, markdown) => Edited(s, messageId, markdown)
  }

  function Run(s: State, ops: seq<Op>): State
    decreases |ops|
  {
    if ops == [] then s else Run(Step(s, ops[0]), ops[1..])
  }
}
