/** The store beneath the transcript, changed one cell at a time as its actions do. */
module TranscriptStore {
  import opened Common
  import opened Transcript

  class TranscriptStore {
    var messages: seq<Message>
    var streaming: Option<string>
    var index: map<string, Loc>
    var bubble: Option<string>
    var pendingDelta: string
    var pendingThought: bool
    var scheduled: bool
    var textShape: Option<bool>
    var thoughtShape: Option<bool>

    ghost function Now(): State
      reads this
    {
      State(messages, streaming, index, bubble, Buffer(pendingDelta, pendingThought, scheduled),
            Shapes(textShape, thoughtShape))
    }

    constructor ()
      ensures Now() == EMPTY
    {
      messages, streaming, index, bubble := [], None, map[], None;
      pendingDelta, pendingThought, scheduled := "", false, false;
      textShape, thoughtShape := None, None;
    }

    // ---------- The buffer ----------

    method DiscardStreamingBuffer()
      modifies this`pendingDelta, this`pendingThought, this`scheduled
      ensures Now() == Discarded(old(Now()))
    {
      scheduled := false;
      pendingDelta, pendingThought := "", false;
    }

    method MergeStreamingDelta(text: string, thought: bool)
      modifies this`messages
      ensures Now() == Appended(old(Now()), thought, text)
    {
      if streaming.None? {
        return;
      }
      var idx := FindMessage(messages, streaming.value);
      if idx == |messages| {
        return;
      }
      var target := messages[idx];
      messages := messages[idx := target.(parts := Extended(target.parts, thought, text))];
    }

    method FlushStreamingBuffer()
      modifies this`messages, this`pendingDelta, this`scheduled
      ensures Now() == Flushed(old(Now()))
    {
      scheduled := false;
      var text := pendingDelta;
      pendingDelta := "";
      if text != "" {
        MergeStreamingDelta(text, pendingThought);
      }
    }

    method AppendStreamingDelta(delta: string, thought: bool)
      modifies this`messages, this`pendingDelta, this`pendingThought, this`scheduled
      ensures Now() == Buffered(old(Now()), thought, delta)
    {
      if streaming.None? {
        return;
      }
      if thought != pendingThought {
        FlushStreamingBuffer();
        pendingThought := thought;
      }
      pendingDelta := pendingDelta + delta;
      scheduled := true;
    }

    // ---------- Beginning and ending a message ----------

    method BeginStreamingMessage(freshId: string)
      modifies this
      ensures Now() == Begun(old(Now()), freshId)
    {
      DiscardStreamingBuffer();
      messages := messages + [Message(freshId, Assistant, [], false)];
      streaming := Some(freshId);
    }

    /** Finishing, and with a placeholder abandoning, the streaming message. */
    method EndStreamingMessage(placeholder: Option<string>)
      modifies this
      ensures Now() == Finished(Flushed(old(Now())), placeholder)
    {
      FlushStreamingBuffer();
      var target := LastIncomplete(messages);
      if streaming.Some? && FindMessage(messages, streaming.value) < |messages| {
        target := streaming;
      }
      var ms := messages;
      messages := seq(|ms|, i requires 0 <= i < |ms| => Ended(ms[i], target, placeholder));
      streaming := None;
    }

    // ---------- Streamed updates ----------

    method AcceptTextShape(thought: bool, legacy: bool) returns (accepted: bool)
      modifies this`textShape, this`thoughtShape
      ensures accepted <==> ShapeOf(old(Now()), thought).None? || ShapeOf(old(Now()), thought) == Some(legacy)
      ensures Now() == WithShape(old(Now()), thought,
        if ShapeOf(old(Now()), thought).None? then Some(legacy) else ShapeOf(old(Now()), thought))
    {
      var shape := if thought then thoughtShape else textShape;
      if shape.None? {
        if thought { thoughtShape := Some(legacy); } else { textShape := Some(legacy); }
        return true;
      }
      accepted := shape == Some(legacy);
    }

    /** One text or thought chunk.  The store is looked up once, before its parts. */
    method OnChunk(thought: bool, pieces: seq<Piece>)
      modifies this
      ensures Now() == Chunked(old(Now()), thought, pieces)
    {
      var open := streaming.Some?;
      ghost var whole := Chunked(Now(), thought, pieces);
      for k := 0 to |pieces|
        invariant ChunkRest(Now(), thought, open, pieces[k..]) == whole
      {
        var part := pieces[k];
        assert pieces[k..][1..] == pieces[k + 1..];
        ghost var before := Now();
        if part.text != "" {
          var accepted := AcceptTextShape(thought, part.legacy);
          if accepted {
            if !open {
              BeginStreamingMessage(part.freshId);
            }
            AppendStreamingDelta(part.text, thought);
          }
        }
        ChunkRestFirst(before, thought, open, pieces[k..]);
      }
      assert pieces[|pieces|..] == [];
    }

    /** Opens a card on the streaming message, which is started if there is none. */
    method OnToolCall(call: Call, freshId: string)
      modifies this
      ensures Now() == Step(old(Now()), ToolCall(call, freshId))
    {
      if streaming.None? {
        BeginStreamingMessage(freshId);
      }
      var messageIdx := FindMessage(messages, streaming.value);
      if messageIdx == |messages| {
        return;
      }
      var msg := messages[messageIdx];
      var partIdx := |msg.parts|;
      messages := messages[messageIdx := msg.(parts := msg.parts + [Tool(call)])];
      index := index[call.id := Loc(messageIdx, partIdx)];
    }

    /** Patches the card the index points at: one cell of one message. */
    method OnToolCallUpdate(u: Update)
      modifies this`messages
      ensures Now() == IndexedUpdate(old(Now()), u)
    {
      if u.id !in index {
        return;
      }
      var loc := index[u.id];
      if loc.message >= |messages| || loc.part >= |messages[loc.message].parts| {
        return;
      }
      var msg := messages[loc.message];
      if !msg.parts[loc.part].Tool? {
        return;
      }
      var call := msg.parts[loc.part].call;
      if u.status.Some? {
        if u.status.value != InProgress && call.completedAt.None? {
          call := call.(completedAt := Some(u.now));
        }
        call := call.(status := u.status.value);
      }
      if u.content.Some? {
        call := call.(content := u.content.value);
      }
      if u.partial.Some? {
        call := call.(partial := true, partialResult := u.partial.value);
      }
      messages := messages[loc.message := msg.(parts := msg.parts[loc.part := Tool(call)])];
    }

    /** One batch of streamed updates, in order; an error reported with the usage abandons the message. */
    method ApplyBatch(batch: seq<Op>)
      requires forall k :: 0 <= k < |batch| ==>
        batch[k].ToolCall? || batch[k].ToolCallUpdate? || batch[k].Chunk? || batch[k].Abandon?
      modifies this
      ensures Now() == Run(old(Now()), batch)
    {
      for k := 0 to |batch|
        invariant Run(Now(), batch[k..]) == Run(old(Now()), batch)
      {
        assert batch[k..][1..] == batch[k + 1..];
        match batch[k]
        case ToolCall(call, freshId) => OnToolCall(call, freshId);
        case ToolCallUpdate(u) => OnToolCallUpdate(u);
        case Chunk(thought, pieces) => OnChunk(thought, pieces);
        case Abandon(placeholder) => EndStreamingMessage(placeholder);
      }
      assert batch[|batch|..] == [];
    }

    // ---------- The user's messages, edits and the history ----------

    method PushOptimisticUser(freshId: string, parts: seq<Part>)
      modifies this`messages, this`bubble
      ensures Now() == Step(old(Now()), PushUser(freshId, parts))
    {
      bubble := Some(freshId);
      messages := messages + [Message(freshId, User, parts, true)];
    }

    method PopOptimisticUser()
      modifies this`messages, this`bubble, this`index
      ensures Now() == Step(old(Now()), PopOptimistic)
    {
      if bubble.Some? {
        messages := WithoutMessage(messages, bubble.value);
        bubble, index := None, map[];
      }
    }

    /** The index is left as it is, whatever happens to the cells it names. */
    method EditAssistantMessage(messageId: string, markdown: string)
      modifies this`messages
      ensures Now() == Step(old(Now()), Edit(messageId, markdown))
    {
      var idx := FindMessage(messages, messageId);
      if idx == |messages| || messages[idx].role != Assistant {
        return;
      }
      var preserved := NonText(messages[idx].parts);
      messages := messages[idx := messages[idx].(parts := preserved + [Text(markdown)])];
    }

    /** The buffer goes even when the history is that of another session. */
    method LoadHistoryMessages(focused: bool, history: seq<Message>)
      modifies this
      ensures Now() == Step(old(Now()), if focused then Replace(history) else Discard)
    {
      DiscardStreamingBuffer();
      if focused {
        messages, streaming, index := history, None, map[];
      }
    }
  }

  /** What the rest of a chunk makes of the state, given whether a message was streaming at its start. */
  function ChunkRest(s: State, thought: bool, open: bool, pieces: seq<Piece>): State {
    var shape := ShapeOf(s, thought);
    Spread(WithShape(s, thought, Latched(shape, pieces)), thought, open, Accepted(shape, pieces))
  }

  lemma {:induction false} ShapeApart(s: State, thought: bool, shape: Option<bool>, id: string, text: string)
    ensures WithShape(Begun(s, id), thought, shape) == Begun(WithShape(s, thought, shape), id)
    ensures WithShape(Buffered(s, thought, text), thought, shape) == Buffered(WithShape(s, thought, shape), thought, text)
    ensures Begun(s, id).shapes == s.shapes && Buffered(s, thought, text).shapes == s.shapes
    ensures ShapeOf(WithShape(s, thought, shape), thought) == shape
  {
  }

  /** The first part of the rest, taken by itself. */
  lemma {:induction false} ChunkRestFirst(s: State, thought: bool, open: bool, pieces: seq<Piece>)
    requires pieces != []
    ensures var p, shape := pieces[0], ShapeOf(s, thought);
      ChunkRest(s, thought, open, pieces) ==
        if p.text == "" then ChunkRest(s, thought, open, pieces[1..])
        else
          var t := WithShape(s, thought, if shape.None? then Some(p.legacy) else shape);
          if shape.Some? && shape != Some(p.legacy) then ChunkRest(t, thought, open, pieces[1..])
          else ChunkRest(Buffered(if open then t else Begun(t, p.freshId), thought, p.text), thought, open, pieces[1..])
  {
    var p, shape := pieces[0], ShapeOf(s, thought);
    if p.text != "" {
      var next := if shape.None? then Some(p.legacy) else shape;
      var t, last := WithShape(s, thought, next), Latched(next, pieces[1..]);
      assert ShapeOf(t, thought) == next;
      assert WithShape(t, thought, last) == WithShape(s, thought, last);
      if shape.None? || shape == Some(p.legacy) {
        var u := if open then t else Begun(t, p.freshId);
        ShapeApart(t, thought, last, p.freshId, p.text);
        ShapeApart(u, thought, last, p.freshId, p.text);
      }
    }
  }
}
