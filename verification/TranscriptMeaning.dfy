/**
  What the operations on the streamed transcript write, field by field and cell by cell
  (src/hooks/useAgentSession.ts and packages/ui/openbuddy-ui-state/src/session-store.ts).
 */
module TranscriptMeaning {
  import opened Common
  import opened Transcript
  import opened ToolCalls
  import opened StreamedText

  predicate IsCell(ms: seq<Message>, l: Loc) {
    l.message < |ms| && l.part < |ms[l.message].parts|
  }

  /** Nothing of the message differs but possibly its parts. */
  predicate SameFrame(a: Message, b: Message) {
    a.id == b.id && a.role == b.role && a.complete == b.complete
  }

  // ---------- Cards ----------

  function CardOf(ms: seq<Message>, l: Loc): Call
    requires CardAt(ms, l).Some?
  {
    ms[l.message].parts[l.part].call
  }

  predicate IsFinal(status: Status) {
    status == Completed || status == Errored
  }

  /** What an update makes of a card. */
  ghost predicate UpdatedCard(after: Call, before: Call, u: Update) {
    && after.id == before.id && after.title == before.title && after.kind == before.kind
    && after.startedAt == before.startedAt && after.rawInput == before.rawInput
    && (u.status.Some? ==> after.status == u.status.value)
    && (u.status.None? ==> after.status == before.status)
    && (u.content.Some? ==> after.content == u.content.value)
    && (u.content.None? ==> after.content == before.content)
    && (before.completedAt.None? && u.status.Some? && IsFinal(u.status.value) ==> after.completedAt == Some(u.now))
    && (before.completedAt.Some? || u.status.None? || !IsFinal(u.status.value) ==> after.completedAt == before.completedAt)
    && (u.partial.Some? ==> after.partial && after.partialResult == u.partial.value)
    && (u.partial.None? ==> after.partial == before.partial && after.partialResult == before.partialResult)
  }

  /**
    An update of an indexed call writes what it brings into the latest card of the call, sets the
    completion time with the first final status, and leaves every other field and cell alone.
   */
  lemma {:induction false} UpdateWrites(s: State, u: Update)
    requires Valid(s) && u.id in s.index
    ensures var t, loc := Step(s, ToolCallUpdate(u)), s.index[u.id];
      && IsLatest(s.messages, loc, u.id) && IsLatest(t.messages, loc, u.id)
      && UpdatedCard(CardOf(t.messages, loc), CardOf(s.messages, loc), u)
      && |t.messages| == |s.messages|
      && (forall i :: 0 <= i < |s.messages| ==>
            SameFrame(t.messages[i], s.messages[i]) && |t.messages[i].parts| == |s.messages[i].parts|)
      && (forall l :: IsCell(s.messages, l) && l != loc ==>
            t.messages[l.message].parts[l.part] == s.messages[l.message].parts[l.part])
      && t.(messages := s.messages) == s
  {
    var t, loc := Step(s, ToolCallUpdate(u)), s.index[u.id];
    assert IsLatest(s.messages, loc, u.id);
    StepKeepsValid(s, ToolCallUpdate(u));
    assert IsLatest(t.messages, t.index[u.id], u.id);
  }

  /** An update of a call that is not indexed changes nothing. */
  lemma {:induction false} UnknownUpdateIgnored(s: State, u: Update)
    requires u.id !in s.index
    ensures Step(s, ToolCallUpdate(u)) == s
  {
  }

  /**
    A tool call becomes a card of the streaming message, behind its written parts, with everything
    it brings; it is the indexed one, and nothing else changes.
   */
  lemma {:induction false} CallBecomesCard(s: State, call: Call, freshId: string)
    requires Valid(s) && s.streaming.Some?
    ensures var t, i := Step(s, ToolCall(call, freshId)), StreamAt(s);
      && i < |s.messages| && |t.messages| == |s.messages|
      && SameFrame(t.messages[i], s.messages[i]) && t.messages[i].parts == s.messages[i].parts + [Tool(call)]
      && (forall j :: 0 <= j < |s.messages| && j != i ==> t.messages[j] == s.messages[j])
      && call.id in t.index && t.index[call.id] == Loc(i, |s.messages[i].parts|)
      && (forall id :: id != call.id ==> (id in t.index <==> id in s.index))
      && (forall id :: id != call.id && id in s.index ==> t.index[id] == s.index[id])
      && t.(messages := s.messages, index := s.index) == s
  {
  }

  /** Without a streaming message the card opens one. */
  lemma {:induction false} CallOpensMessage(s: State, call: Call, freshId: string)
    requires Valid(s) && s.streaming.None? && UnusedId(s, freshId)
    ensures var t := Step(s, ToolCall(call, freshId));
      && t.messages == s.messages + [Message(freshId, Assistant, [Tool(call)], false)]
      && t.streaming == Some(freshId) && t.index == s.index[call.id := Loc(|s.messages|, 0)]
  {
    var b := Begun(s, freshId);
    BegunValid(s, freshId);
    FoundAt(b.messages, |s.messages|);
    assert [] + [Tool(call)] == [Tool(call)];
    assert Carded(b, call).messages == s.messages + [Message(freshId, Assistant, [Tool(call)], false)];
  }

  // ---------- Messages ----------

  /** A new message is empty, from the assistant, incomplete, last, and the one that streams. */
  lemma {:induction false} BeginOpens(s: State, id: string)
    ensures var t := Step(s, Begin(id));
      && |t.messages| == |s.messages| + 1 && t.messages[..|s.messages|] == s.messages
      && t.messages[|s.messages|] == Message(id, Assistant, [], false) && t.streaming == Some(id)
      && t.buffer.text == "" && t.index == s.index && t.bubble == s.bubble && t.shapes == s.shapes
  {
  }

  /** The last of the assistant's messages that is not complete. */
  predicate IsLastIncomplete(ms: seq<Message>, i: int) {
    && 0 <= i < |ms| && ms[i].role == Assistant && !ms[i].complete
    && forall j :: i < j < |ms| ==> ms[j].role != Assistant || ms[j].complete
  }

  lemma {:induction false} LastIncompleteMeaning(ms: seq<Message>)
    ensures LastIncomplete(ms).None? ==> forall i :: 0 <= i < |ms| ==> ms[i].role != Assistant || ms[i].complete
    ensures LastIncomplete(ms).Some? ==> exists i :: IsLastIncomplete(ms, i) && ms[i].id == LastIncomplete(ms).value
  {
    if ms != [] {
      var n := |ms| - 1;
      if ms[n].role == Assistant && !ms[n].complete {
        assert IsLastIncomplete(ms, n);
      } else {
        LastIncompleteMeaning(ms[..n]);
        if LastIncomplete(ms[..n]).Some? {
          var i :| IsLastIncomplete(ms[..n], i) && ms[..n][i].id == LastIncomplete(ms[..n]).value;
          assert IsLastIncomplete(ms, i);
        }
      }
    }
  }

  /** The message that an end concerns: the streaming one, or else the last incomplete one of the assistant. */
  predicate IsToEnd(s: State, i: int) {
    if s.streaming.Some? then i == StreamAt(s) && i < |s.messages| else IsLastIncomplete(s.messages, i)
  }

  /**
    An end completes that message alone, after the buffer has been written; abandoned with a
    placeholder while empty, it shows the placeholder.  Nothing streams any more.
   */
  lemma {:induction false} EndCompletes(s: State, placeholder: Option<string>, i: nat)
    requires Valid(s) && IsToEnd(s, i)
    ensures var f, t := Flushed(s), Step(s, Abandon(placeholder));
      && |t.messages| == |s.messages| == |f.messages| && t.streaming.None? && t.buffer.text == ""
      && t.messages[i].complete && t.messages[i].id == s.messages[i].id && t.messages[i].role == s.messages[i].role
      && t.messages[i].parts == (if f.messages[i].parts == [] && placeholder.Some? then [Text(placeholder.value)]
                                 else f.messages[i].parts)
      && (forall j :: 0 <= j < |s.messages| && j != i ==> t.messages[j] == s.messages[j])
    ensures placeholder.None? ==> Step(s, Finish) == Step(s, Abandon(placeholder))
  {
    var f := Flushed(s);
    FlushedValid(s);
    if s.streaming.Some? {
      FlushKeepsSpoken(s, false);
    } else {
      assert f.messages == s.messages;
      LastIncompleteMeaning(s.messages);
      assert LastIncomplete(s.messages).Some?;
      var k :| IsLastIncomplete(s.messages, k) && s.messages[k].id == LastIncomplete(s.messages).value;
      assert k == i;
    }
    assert ToFinish(f) == Some(f.messages[i].id);
  }

  /** With no message to end only the stream ends. */
  lemma {:induction false} EndOfNothing(s: State, placeholder: Option<string>)
    requires Valid(s) && s.streaming.None? && forall i :: 0 <= i < |s.messages| ==> s.messages[i].role != Assistant || s.messages[i].complete
    ensures Step(s, Abandon(placeholder)).messages == s.messages && Step(s, Abandon(placeholder)).streaming.None?
  {
    LastIncompleteMeaning(s.messages);
    assert LastIncomplete(s.messages).None?;
    assert Flushed(s).messages == s.messages;
  }

  /** The user's message is complete and last; popping it brings the list of before back and drops the index. */
  lemma {:induction false} PushedIsPopped(s: State, id: string, parts: seq<Part>)
    requires UnusedId(s, id)
    ensures var t := Step(s, PushUser(id, parts));
      && t.messages == s.messages + [Message(id, User, parts, true)] && t.bubble == Some(id)
      && t.(messages := s.messages, bubble := s.bubble) == s
      && Step(t, PopOptimistic).messages == s.messages && Step(t, PopOptimistic).bubble.None?
      && Step(t, PopOptimistic).index == map[]
  {
    WithoutAbsent(s.messages, id);
    WithoutLast(s.messages, Message(id, User, parts, true));
  }

  lemma {:induction false} WithoutAbsent(ms: seq<Message>, id: string)
    requires forall i :: 0 <= i < |ms| ==> ms[i].id != id
    ensures WithoutMessage(ms, id) == ms
  {
    if ms != [] {
      WithoutAbsent(ms[1..], id);
    }
  }

  lemma {:induction false} WithoutLast(ms: seq<Message>, m: Message)
    ensures WithoutMessage(ms + [m], m.id) == WithoutMessage(ms, m.id)
  {
    if ms == [] {
      assert ms + [m] == [m] && [m][1..] == [];
    } else {
      WithoutLast(ms[1..], m);
      assert (ms + [m])[1..] == ms[1..] + [m];
    }
  }

  /** A loaded history replaces the messages, and stream, index and buffer go; another session's takes only the buffer. */
  lemma {:induction false} HistoryReplaces(s: State, history: seq<Message>)
    ensures var t := Step(s, Replace(history));
      t.messages == history && t.streaming.None? && t.index == map[] && t.buffer.text == "" && t.bubble == s.bubble
    ensures var d := Step(s, Discard);
      d.messages == s.messages && d.streaming == s.streaming && d.index == s.index && d.buffer.text == ""
  {
  }

  /** With a new turn the channels accept any shape again. */
  lemma {:induction false} TurnReopensShapes(s: State, thought: bool, p: Piece)
    requires p.text != ""
    ensures ShapeOf(Step(s, ResetShapes), thought).None?
    ensures Accepted(ShapeOf(Step(s, ResetShapes), thought), [p]) == [p]
  {
    assert [p][1..] == [];
  }

  // ---------- Text ----------

  predicate OfKind(p: Part, thought: bool) {
    if thought then p.Thought? else p.Text?
  }

  /** Text is added to a last part of its kind; behind any other part it opens one. */
  lemma {:induction false} ExtendedMeaning(parts: seq<Part>, thought: bool, text: string)
    ensures var r, n := Extended(parts, thought, text), |parts|;
      if n > 0 && OfKind(parts[n - 1], thought) then
        |r| == n && r[..n - 1] == parts[..n - 1] && OfKind(r[n - 1], thought)
          && PartText(r[n - 1], thought) == PartText(parts[n - 1], thought) + text
      else
        |r| == n + 1 && r[..n] == parts && OfKind(r[n], thought) && PartText(r[n], thought) == text
  {
  }

  /**
    Text of the other kind has what waits written first, so thoughts and text keep their order;
    text of the same kind joins what waits and writes nothing.
   */
  lemma {:induction false} KindSwitchWrites(s: State, thought: bool, text: string)
    requires Valid(s) && s.streaming.Some?
    ensures var t, i := Step(s, Delta(thought, text)), StreamAt(s);
      && t.buffer.thought == thought && t.buffer.scheduled && t.streaming == s.streaming && |t.messages| == |s.messages|
      && (thought == s.buffer.thought ==> t.messages == s.messages && t.buffer.text == s.buffer.text + text)
      && (thought != s.buffer.thought ==> t.buffer.text == text)
      && (thought != s.buffer.thought && s.buffer.text != "" ==>
            t.messages[i].parts == Extended(s.messages[i].parts, s.buffer.thought, s.buffer.text))
      && (forall j :: 0 <= j < |s.messages| && j != i ==> t.messages[j] == s.messages[j])
  {
    assert "" + text == text;
  }

  // ---------- Edits ----------

  lemma {:induction false} KeptText(parts: seq<Part>, thought: bool)
    ensures TextOf(NonText(parts), thought) == if thought then TextOf(parts, true) else ""
  {
    if parts != [] {
      var n := |parts| - 1;
      var p, kept := parts[n], NonText(parts[..n]);
      KeptText(parts[..n], thought);
      assert TextOf(parts, true) == TextOf(parts[..n], true) + PartText(p, true);
      if p.Text? {
        assert NonText(parts) == kept;
        assert TextOf(parts[..n], true) + "" == TextOf(parts[..n], true);
      } else {
        assert NonText(parts) == kept + [p];
        TextOfAppend(kept, p, thought);
        assert PartText(p, false) == "";
      }
    }
  }

  lemma {:induction false} EditedText(parts: seq<Part>, markdown: string)
    ensures TextOf(NonText(parts) + [Text(markdown)], false) == markdown
    ensures TextOf(NonText(parts) + [Text(markdown)], true) == TextOf(parts, true)
  {
    KeptText(parts, false);
    KeptText(parts, true);
    TextOfAppend(NonText(parts), Text(markdown), false);
    TextOfAppend(NonText(parts), Text(markdown), true);
    assert "" + markdown == markdown && TextOf(parts, true) + "" == TextOf(parts, true);
  }

  /** An edited answer reads as the new text; its thoughts are as they were, and no other message changes. */
  lemma {:induction false} EditReads(s: State, messageId: string, markdown: string)
    requires Editable(s, messageId)
    ensures var t, i := Step(s, Edit(messageId, markdown)), FindMessage(s.messages, messageId);
      && |t.messages| == |s.messages| && SameFrame(t.messages[i], s.messages[i])
      && TextOf(t.messages[i].parts, false) == markdown
      && TextOf(t.messages[i].parts, true) == TextOf(s.messages[i].parts, true)
      && (forall j :: 0 <= j < |s.messages| && j != i ==> t.messages[j] == s.messages[j])
  {
    var i := FindMessage(s.messages, messageId);
    assert Step(s, Edit(messageId, markdown)).messages[i].parts == NonText(s.messages[i].parts) + [Text(markdown)];
    EditedText(s.messages[i].parts, markdown);
  }

  /** The other parts of an edited answer stay, in their order, in front of the text. */
  lemma {:induction false} EditKeepsParts(parts: seq<Part>, p: Part)
    ensures NonText(parts + [p]) == NonText(parts) + (if p.Text? then [] else [p])
    ensures NonText([]) == []
  {
    assert (parts + [p])[..|parts|] == parts;
  }
}
