/**
  The text of a streamed answer, through the buffer it waits in: what ends up in the message, in
  what order, where cards come to stand, and when text is lost.
 */
module StreamedText {
  import opened Common
  import opened Transcript
  import opened ToolCalls

  function PartText(p: Part, thought: bool): string {
    if p.Text? && !thought then p.text else if p.Thought? && thought then p.text else ""
  }

  /** All text of one kind in the parts of a message, in order. */
  function TextOf(parts: seq<Part>, thought: bool): string {
    if parts == [] then ""
    else TextOf(parts[..|parts| - 1], thought) + PartText(parts[|parts| - 1], thought)
  }

  function Waiting(b: Buffer, thought: bool): string {
    if b.thought == thought then b.text else ""
  }

  /** All text of one kind the streaming message has been given, written or waiting. */
  function Spoken(s: State, thought: bool): string {
    if StreamAt(s) == |s.messages| then ""
    else TextOf(s.messages[StreamAt(s)].parts, thought) + Waiting(s.buffer, thought)
  }

  // ---------- What a chunk contributes ----------

  function OfShape(pieces: seq<Piece>, legacy: bool): seq<Piece> {
    if pieces == [] then []
    else (if pieces[0].text != "" && pieces[0].legacy == legacy then [pieces[0]] else []) + OfShape(pieces[1..], legacy)
  }

  /** The accepted parts are those of the shape the channel locks onto; the lock never changes within a turn. */
  lemma {:induction false} AcceptedIsOneShape(shape: Option<bool>, pieces: seq<Piece>)
    ensures shape.Some? ==> Latched(shape, pieces) == shape
    ensures Accepted(shape, pieces)
         == if Latched(shape, pieces).Some? then OfShape(pieces, Latched(shape, pieces).value) else []
    decreases |pieces|
  {
    if pieces != [] {
      var next := if shape.None? && pieces[0].text != "" then Some(pieces[0].legacy) else shape;
      AcceptedIsOneShape(next, pieces[1..]);
    }
  }

  /** A bridge that sends every piece of text in both shapes. */
  function Doubled(pieces: seq<Piece>): seq<Piece> {
    if pieces == [] then []
    else [pieces[0].(legacy := false), pieces[0].(legacy := true)] + Doubled(pieces[1..])
  }

  function Joined(pieces: seq<Piece>): string {
    if pieces == [] then "" else pieces[0].text + Joined(pieces[1..])
  }

  /** Doubled text is taken once. */
  lemma {:induction false} DoubledTakenOnce(shape: Option<bool>, pieces: seq<Piece>)
    ensures Joined(Accepted(shape, Doubled(pieces))) == Joined(pieces)
    decreases |pieces|
  {
    if pieces != [] {
      var p, q, rest := pieces[0].(legacy := false), pieces[0].(legacy := true), Doubled(pieces[1..]);
      assert Doubled(pieces)[1..] == [q] + rest && ([q] + rest)[1..] == rest;
      var next := if shape.None? && p.text != "" then Some(false) else shape;
      DoubledTakenOnce(next, pieces[1..]);
    }
  }

  // ---------- Nothing changes the text but its arrival ----------

  lemma {:induction false} TextOfAppend(parts: seq<Part>, p: Part, thought: bool)
    ensures TextOf(parts + [p], thought) == TextOf(parts, thought) + PartText(p, thought)
  {
    assert (parts + [p])[..|parts|] == parts;
  }

  /** Text added to a last part of its own kind. */
  lemma {:induction false} TextOfMerged(parts: seq<Part>, p: Part, text: string, thought: bool)
    requires parts != [] && PartText(p, thought) == PartText(parts[|parts| - 1], thought) + text
    ensures TextOf(parts[..|parts| - 1] + [p], thought) == TextOf(parts, thought) + text
  {
    TextOfAppend(parts[..|parts| - 1], p, thought);
  }

  lemma {:induction false} TextOfExtended(parts: seq<Part>, kind: bool, text: string, thought: bool)
    ensures TextOf(Extended(parts, kind, text), thought) == TextOf(parts, thought) + (if kind == thought then text else "")
  {
    var n, added := |parts|, if kind == thought then text else "";
    if n > 0 && parts[n - 1].Text? && !kind {
      TextOfMerged(parts, Text(parts[n - 1].text + text), added, thought);
    } else if n > 0 && parts[n - 1].Thought? && kind {
      TextOfMerged(parts, Thought(parts[n - 1].text + text), added, thought);
    } else {
      TextOfAppend(parts, if kind then Thought(text) else Text(text), thought);
    }
  }

  lemma {:induction false} TextOfPatched(parts: seq<Part>, k: nat, call: Call, thought: bool)
    requires k < |parts| && parts[k].Tool?
    ensures TextOf(parts[k := Tool(call)], thought) == TextOf(parts, thought)
  {
    var n := |parts| - 1;
    if k < n {
      TextOfPatched(parts[..n], k, call, thought);
      assert parts[k := Tool(call)][..n] == parts[..n][k := Tool(call)];
    } else {
      assert parts[k := Tool(call)][..n] == parts[..n];
    }
  }

  /** A message list with the streaming message at the same place. */
  lemma {:induction false} StreamStays(s: State, t: State)
    requires DistinctIds(t.messages) && t.streaming == s.streaming
    requires StreamAt(s) < |s.messages| && StreamAt(s) < |t.messages|
    requires t.messages[StreamAt(s)].id == s.messages[StreamAt(s)].id
    ensures StreamAt(t) == StreamAt(s)
  {
    FoundAt(t.messages, StreamAt(s));
  }

  lemma {:induction false} FlushKeepsSpoken(s: State, thought: bool)
    requires Valid(s) && s.streaming.Some?
    ensures StreamAt(Flushed(s)) == StreamAt(s) && Flushed(s).streaming == s.streaming
    ensures Spoken(Flushed(s), thought) == Spoken(s, thought)
    ensures TextOf(Flushed(s).messages[StreamAt(s)].parts, thought) == Spoken(s, thought)
  {
    FlushedValid(s);
    StreamStays(s, Flushed(s));
    TextOfExtended(s.messages[StreamAt(s)].parts, s.buffer.thought, s.buffer.text, thought);
  }

  /** Text of the kind that waits, or of any kind when none waits. */
  lemma {:induction false} JoinedSpoken(s: State, kind: bool, text: string, thought: bool)
    requires s.streaming.Some? && StreamAt(s) < |s.messages| && (kind == s.buffer.thought || s.buffer.text == "")
    ensures var t := s.(buffer := Buffer(s.buffer.text + text, kind, true));
      Spoken(t, thought) == Spoken(s, thought) + (if kind == thought then text else "")
  {
    var t := s.(buffer := Buffer(s.buffer.text + text, kind, true));
    assert StreamAt(t) == StreamAt(s);
    assert Waiting(t.buffer, thought) == Waiting(s.buffer, thought) + (if kind == thought then text else "");
  }

  lemma {:induction false} BufferedSpoken(s: State, kind: bool, text: string, thought: bool)
    requires Valid(s) && s.streaming.Some?
    ensures Buffered(s, kind, text).streaming == s.streaming
    ensures Spoken(Buffered(s, kind, text), thought) == Spoken(s, thought) + (if kind == thought then text else "")
  {
    if kind == s.buffer.thought {
      JoinedSpoken(s, kind, text, thought);
    } else {
      FlushKeepsSpoken(s, thought);
      FlushedIsEmpty(s);
      JoinedSpoken(Flushed(s), kind, text, thought);
    }
  }

  lemma {:induction false} FlushedIsEmpty(s: State)
    ensures Flushed(s).buffer == Buffer("", s.buffer.thought, false)
  {
  }

  lemma {:induction false} SpreadSpoken(s: State, kind: bool, pieces: seq<Piece>, thought: bool)
    requires Valid(s) && s.streaming.Some?
    ensures Spread(s, kind, true, pieces).streaming == s.streaming
    ensures Spoken(Spread(s, kind, true, pieces), thought)
         == Spoken(s, thought) + (if kind == thought then Joined(pieces) else "")
    decreases |pieces|
  {
    if pieces != [] {
      BufferedSpoken(s, kind, pieces[0].text, thought);
      BufferedValid(s, kind, pieces[0].text);
      SpreadSpoken(Buffered(s, kind, pieces[0].text), kind, pieces[1..], thought);
    }
  }

  /** What an event brings of one kind of text. */
  function Arrived(s: State, op: Op, thought: bool): string {
    match op
    case Delta(kind, text) => if kind == thought then text else ""
    case Chunk(kind, pieces) => if kind == thought then Joined(Accepted(ShapeOf(s, kind), pieces)) else ""
    case _ => ""
  }

  function AllArrived(s: State, ops: seq<Op>, thought: bool): string
    decreases |ops|
  {
    if ops == [] then "" else Arrived(s, ops[0], thought) + AllArrived(Step(s, ops[0]), ops[1..], thought)
  }

  /** The event neither ends the streaming message nor takes its buffer away, and is no edit. */
  predicate KeepsStream(op: Op) {
    !op.Begin? && !op.Finish? && !op.Abandon? && !op.Replace? && !op.Discard? && !op.Edit?
  }

  lemma {:induction false} CardKeepsSpoken(s: State, call: Call, thought: bool)
    requires Valid(s) && s.streaming.Some?
    ensures Carded(s, call).streaming == s.streaming && Spoken(Carded(s, call), thought) == Spoken(s, thought)
  {
    CardedValid(s, call);
    StreamStays(s, Carded(s, call));
    TextOfAppend(s.messages[StreamAt(s)].parts, Tool(call), thought);
  }

  lemma {:induction false} UpdateKeepsSpoken(s: State, u: Update, thought: bool)
    requires Valid(s) && s.streaming.Some?
    ensures IndexedUpdate(s, u).streaming == s.streaming && Spoken(IndexedUpdate(s, u), thought) == Spoken(s, thought)
  {
    var t := IndexedUpdate(s, u);
    if u.id in s.index {
      var loc := s.index[u.id];
      PatchedValid(s, loc, u);
      StreamStays(s, t);
      if CardAt(s.messages, loc).Some? && loc.message == StreamAt(s) {
        var parts := s.messages[loc.message].parts;
        TextOfPatched(parts, loc.part, PatchedCall(parts[loc.part].call, u), thought);
      }
    }
  }

  lemma {:induction false} PopKeepsSpoken(s: State, thought: bool)
    requires Valid(s) && s.streaming.Some?
    ensures var t := Step(s, PopOptimistic); t.streaming == s.streaming && Spoken(t, thought) == Spoken(s, thought)
  {
    if s.bubble.Some? {
      var t, m := Step(s, PopOptimistic), s.messages[StreamAt(s)];
      WithoutMessageIds(s.messages, s.bubble.value);
      WithoutMessageMember(s.messages, s.bubble.value, m);
      var j :| 0 <= j < |t.messages| && t.messages[j] == m;
      FoundAt(t.messages, j);
    }
  }

  lemma {:induction false} StepKeepsSpoken(s: State, op: Op, thought: bool)
    requires Valid(s) && Legal(s, op) && s.streaming.Some? && KeepsStream(op)
    ensures Step(s, op).streaming == s.streaming
    ensures Spoken(Step(s, op), thought) == Spoken(s, thought) + Arrived(s, op, thought)
  {
    match op
    case ToolCall(call, _) => CardKeepsSpoken(s, call, thought);
    case ToolCallUpdate(u) => UpdateKeepsSpoken(s, u, thought);
    case Chunk(kind, pieces) =>
      var t := WithShape(s, kind, Latched(ShapeOf(s, kind), pieces));
      SameCardsValid(s, t);
      SpreadSpoken(t, kind, Accepted(ShapeOf(s, kind), pieces), thought);
      assert Spoken(t, thought) == Spoken(s, thought);
    case Delta(kind, text) => BufferedSpoken(s, kind, text, thought);
    case Flush => FlushKeepsSpoken(s, thought);
    case ResetShapes =>
    case PushUser(_, _) =>
      StepKeepsValid(s, op);
      StreamStays(s, Step(s, op));
    case PopOptimistic => PopKeepsSpoken(s, thought);
  }

  lemma {:induction false} RunKeepsSpoken(s: State, ops: seq<Op>, thought: bool)
    requires Valid(s) && LegalRun(s, ops) && s.streaming.Some? && forall k :: 0 <= k < |ops| ==> KeepsStream(ops[k])
    ensures Valid(Run(s, ops)) && Run(s, ops).streaming == s.streaming
    ensures Spoken(Run(s, ops), thought) == Spoken(s, thought) + AllArrived(s, ops, thought)
    decreases |ops|
  {
    if ops != [] {
      assert KeepsStream(ops[0]);
      StepKeepsValid(s, ops[0]);
      StepKeepsSpoken(s, ops[0], thought);
      RunKeepsSpoken(Step(s, ops[0]), ops[1..], thought);
    }
  }

  lemma {:induction false} FinishWrites(s: State, thought: bool)
    requires Valid(s) && s.streaming.Some?
    ensures var t, i := Step(s, Finish), StreamAt(s);
      && i < |t.messages| && t.messages[i].id == s.messages[i].id && t.messages[i].complete
      && TextOf(t.messages[i].parts, thought) == Spoken(s, thought)
      && t.streaming.None? && t.buffer.text == ""
  {
    FlushKeepsSpoken(s, thought);
  }

  /**
    Whatever the moments of the flushes, and whatever cards, updates and user messages come in
    between: the finished answer holds the text of each kind that arrived for it, in order.
   */
  lemma {:induction false} AnswerIsComplete(s: State, id: string, ops: seq<Op>, thought: bool)
    requires Valid(s) && UnusedId(s, id) && LegalRun(Begun(s, id), ops)
    requires forall k :: 0 <= k < |ops| ==> KeepsStream(ops[k])
    ensures var r := Run(Begun(s, id), ops);
      var t, i := Step(r, Finish), StreamAt(r);
      && i < |t.messages| && t.messages[i].id == id && t.messages[i].complete
      && TextOf(t.messages[i].parts, thought) == AllArrived(Begun(s, id), ops, thought)
  {
    var b := Begun(s, id);
    BegunValid(s, id);
    FoundAt(b.messages, |s.messages|);
    RunKeepsSpoken(b, ops, thought);
    FinishWrites(Run(b, ops), thought);
    assert Spoken(b, thought) == "";
  }

  // ---------- Where cards come to stand ----------

  /**
    A card comes before the text that waits when it arrives.  So text that arrived before the card
    keeps its place exactly when none is waiting.
   */
  lemma {:induction false} CardKeepsPlaceIff(s: State, call: Call)
    requires Valid(s) && s.streaming.Some?
    ensures var i, b := StreamAt(s), s.buffer;
      Flushed(Carded(s, call)).messages[i].parts == s.messages[i].parts + [Tool(call)]
        + (if b.text == "" then [] else [if b.thought then Thought(b.text) else Text(b.text)])
    ensures Flushed(Carded(s, call)) == Carded(Flushed(s), call) <==> s.buffer.text == ""
  {
    var i := StreamAt(s);
    var early, late := Carded(Flushed(s), call), Flushed(Carded(s, call));
    CardedValid(s, call);
    StreamStays(s, Carded(s, call));
    FlushKeepsSpoken(s, false);
    if s.buffer.text != "" {
      var n, m := |early.messages[i].parts|, |late.messages[i].parts|;
      assert early.messages[i].parts[n - 1].Tool? && !late.messages[i].parts[m - 1].Tool?;
    }
  }

  /** An answer that says "a" and then opens a card, in one batch, shows the card first. */
  lemma TextBehindCard(call: Call)
    ensures var s := Begun(EMPTY, "m");
      var t := Step(Run(s, [Delta(false, "a"), ToolCall(call, "")]), Finish);
      Valid(s) && |t.messages| == 1 && t.messages[0].parts == [Tool(call), Text("a")]
  {
    var s := Begun(EMPTY, "m");
    var u := Buffered(s, false, "a");
    var first, second := Delta(false, "a"), ToolCall(call, "");
    assert [first, second][1..] == [second] && [second][1..] == [];
    assert Step(s, first) == u && Step(u, second) == Carded(u, call);
    assert Run(u, [second]) == Run(Carded(u, call), []);
    BegunValid(EMPTY, "m");
    BufferedValid(s, false, "a");
    CardKeepsPlaceIff(u, call);
    var f := Flushed(Carded(u, call));
    assert u.buffer.text == "a" && !u.buffer.thought;
    assert u.messages == s.messages && StreamAt(u) == 0 && s.messages[0].parts == [];
    assert f.messages[0].parts == [] + [Tool(call)] + [Text("a")];
    assert |f.messages| == 1;
  }

  // ---------- When text is lost ----------

  function SizeOf(parts: seq<Part>): nat {
    |TextOf(parts, false)| + |TextOf(parts, true)|
  }

  function Sum(ns: seq<nat>): nat {
    if ns == [] then 0 else Sum(ns[..|ns| - 1]) + ns[|ns| - 1]
  }

  function Sizes(ms: seq<Message>): (r: seq<nat>)
    ensures |r| == |ms|
  {
    seq(|ms|, i requires 0 <= i < |ms| => SizeOf(ms[i].parts))
  }

  function TotalSize(ms: seq<Message>): nat {
    Sum(Sizes(ms))
  }

  /** All text in the transcript, and the text that waits. */
  function Size(s: State): nat {
    TotalSize(s.messages) + |s.buffer.text|
  }

  function Incoming(s: State, op: Op): nat {
    match op
    case Delta(_, text) => |text|
    case Chunk(kind, pieces) => |Joined(Accepted(ShapeOf(s, kind), pieces))|
    case PushUser(_, parts) => SizeOf(parts)
    case _ => 0
  }

  /**
    A message begun while text waits, a history loaded while text waits, text without a message to
    go to, and a chunk of several parts that arrives while no message is streaming.
   */
  predicate LosesText(s: State, op: Op) {
    match op
    case Begin(_) => s.buffer.text != ""
    case Discard => s.buffer.text != ""
    case Delta(_, text) => s.streaming.None? && text != ""
    case Chunk(kind, pieces) => s.streaming.None? && |Accepted(ShapeOf(s, kind), pieces)| >= 2
    case _ => false
  }

  lemma {:induction false} SumWith(ns: seq<nat>, i: nat, v: nat)
    requires i < |ns|
    ensures Sum(ns[i := v]) == Sum(ns) - ns[i] + v && ns[i] <= Sum(ns)
  {
    var n := |ns| - 1;
    if i < n {
      SumWith(ns[..n], i, v);
      assert ns[i := v][..n] == ns[..n][i := v];
    } else {
      assert ns[i := v][..n] == ns[..n];
    }
  }

  lemma {:induction false} SumGrows(a: seq<nat>, b: seq<nat>)
    requires |a| == |b| && forall i :: 0 <= i < |a| ==> a[i] <= b[i]
    ensures Sum(a) <= Sum(b)
  {
    if a != [] {
      SumGrows(a[..|a| - 1], b[..|b| - 1]);
    }
  }

  lemma {:induction false} SizeWith(ms: seq<Message>, i: nat, m: Message)
    requires i < |ms|
    ensures TotalSize(ms[i := m]) == TotalSize(ms) - SizeOf(ms[i].parts) + SizeOf(m.parts)
    ensures SizeOf(ms[i].parts) <= TotalSize(ms)
  {
    SumWith(Sizes(ms), i, SizeOf(m.parts));
    assert Sizes(ms[i := m]) == Sizes(ms)[i := SizeOf(m.parts)];
  }

  lemma {:induction false} SizeAdded(ms: seq<Message>, m: Message)
    ensures TotalSize(ms + [m]) == TotalSize(ms) + SizeOf(m.parts)
  {
    assert Sizes(ms + [m])[..|ms|] == Sizes(ms);
  }

  lemma {:induction false} SizeGrows(a: seq<Message>, b: seq<Message>)
    requires |a| == |b| && forall i :: 0 <= i < |a| ==> SizeOf(a[i].parts) <= SizeOf(b[i].parts)
    ensures TotalSize(a) <= TotalSize(b)
  {
    SumGrows(Sizes(a), Sizes(b));
  }

  lemma {:induction false} FlushKeepsSize(s: State)
    requires Valid(s)
    ensures Size(Flushed(s)) == Size(s) && Flushed(s).buffer.text == ""
  {
    if s.buffer.text != "" {
      var i := StreamAt(s);
      var m := s.messages[i];
      var parts := Extended(m.parts, s.buffer.thought, s.buffer.text);
      TextOfExtended(m.parts, s.buffer.thought, s.buffer.text, false);
      TextOfExtended(m.parts, s.buffer.thought, s.buffer.text, true);
      SizeWith(s.messages, i, m.(parts := parts));
    }
  }

  lemma {:induction false} BufferedSize(s: State, kind: bool, text: string)
    requires Valid(s) && s.streaming.Some?
    ensures Size(Buffered(s, kind, text)) == Size(s) + |text|
  {
    FlushKeepsSize(s);
  }

  lemma {:induction false} SpreadSize(s: State, kind: bool, pieces: seq<Piece>)
    requires Valid(s) && s.streaming.Some?
    ensures Size(Spread(s, kind, true, pieces)) == Size(s) + |Joined(pieces)|
    decreases |pieces|
  {
    if pieces != [] {
      BufferedSize(s, kind, pieces[0].text);
      BufferedValid(s, kind, pieces[0].text);
      SpreadSize(Buffered(s, kind, pieces[0].text), kind, pieces[1..]);
    }
  }

  /** Each part of a chunk begins a message and so discards the one before; the last one stays. */
  lemma {:induction false} ScatteredSize(s: State, kind: bool, pieces: seq<Piece>)
    requires Valid(s) && UnusedIds(s, pieces) && pieces != []
    ensures Size(Spread(s, kind, false, pieces)) == Size(s) - |s.buffer.text| + |pieces[|pieces| - 1].text|
    decreases |pieces|
  {
    var b := Begun(s, pieces[0].freshId);
    var t := Buffered(b, kind, pieces[0].text);
    BegunValid(s, pieces[0].freshId);
    SizeAdded(s.messages, Message(pieces[0].freshId, Assistant, [], false));
    BufferedSize(b, kind, pieces[0].text);
    BufferedValid(b, kind, pieces[0].text);
    SpreadUnused(s, kind, pieces);
    assert t.buffer.text == pieces[0].text;
    if |pieces| > 1 {
      ScatteredSize(t, kind, pieces[1..]);
    } else {
      assert Spread(t, kind, false, pieces[1..]) == t;
    }
  }

  lemma {:induction false} AcceptedHaveText(shape: Option<bool>, pieces: seq<Piece>, k: nat)
    requires k < |Accepted(shape, pieces)|
    ensures Accepted(shape, pieces)[k].text != ""
    decreases |pieces|
  {
    if pieces[0].text == "" {
      AcceptedHaveText(shape, pieces[1..], k);
    } else if shape.None? || shape.value == pieces[0].legacy {
      if k > 0 { AcceptedHaveText(Some(pieces[0].legacy), pieces[1..], k - 1); }
    } else {
      AcceptedHaveText(shape, pieces[1..], k);
    }
  }

  lemma {:induction false} LastOfJoined(pieces: seq<Piece>)
    requires pieces != [] && forall k :: 0 <= k < |pieces| ==> pieces[k].text != ""
    ensures |pieces[|pieces| - 1].text| <= |Joined(pieces)|
    ensures |pieces[|pieces| - 1].text| == |Joined(pieces)| <==> |pieces| == 1
  {
    if |pieces| > 1 {
      LastOfJoined(pieces[1..]);
    }
  }

  lemma {:induction false} ChunkLosesIff(s: State, kind: bool, pieces: seq<Piece>)
    requires Valid(s) && Legal(s, Chunk(kind, pieces))
    ensures var op := Chunk(kind, pieces);
      && Size(Step(s, op)) <= Size(s) + Incoming(s, op)
      && (Size(Step(s, op)) < Size(s) + Incoming(s, op) <==> LosesText(s, op))
  {
    var shape := ShapeOf(s, kind);
    var t, accepted := WithShape(s, kind, Latched(shape, pieces)), Accepted(shape, pieces);
    SameCardsValid(s, t);
    forall id | UnusedId(s, id) ensures UnusedId(t, id) { }
    if s.streaming.Some? {
      SpreadSize(t, kind, accepted);
    } else if accepted != [] {
      ScatteredSize(t, kind, accepted);
      forall k | 0 <= k < |accepted| ensures accepted[k].text != "" {
        AcceptedHaveText(shape, pieces, k);
      }
      LastOfJoined(accepted);
    }
  }

  lemma {:induction false} CardKeepsSize(s: State, call: Call)
    ensures Size(Carded(s, call)) == Size(s)
  {
    var i := StreamAt(s);
    if i < |s.messages| {
      var m := s.messages[i];
      TextOfAppend(m.parts, Tool(call), false);
      TextOfAppend(m.parts, Tool(call), true);
      SizeWith(s.messages, i, m.(parts := m.parts + [Tool(call)]));
    }
  }

  lemma {:induction false} UpdateKeepsSize(s: State, u: Update)
    ensures Size(IndexedUpdate(s, u)) == Size(s)
  {
    if u.id in s.index && CardAt(s.messages, s.index[u.id]).Some? {
      var loc := s.index[u.id];
      var m := s.messages[loc.message];
      var call := PatchedCall(m.parts[loc.part].call, u);
      TextOfPatched(m.parts, loc.part, call, false);
      TextOfPatched(m.parts, loc.part, call, true);
      SizeWith(s.messages, loc.message, m.(parts := m.parts[loc.part := Tool(call)]));
    }
  }

  lemma {:induction false} EndKeepsSize(s: State, placeholder: Option<string>)
    requires Valid(s)
    ensures Size(Finished(Flushed(s), placeholder)) >= Size(s)
  {
    FlushKeepsSize(s);
    SizeGrows(Flushed(s).messages, Finished(Flushed(s), placeholder).messages);
  }

  /** In every other step of a growing transcript no text is lost. */
  lemma {:induction false} TextLostIff(s: State, op: Op)
    requires Valid(s) && Legal(s, op) && TailGrowing(op)
    ensures Size(Step(s, op)) < Size(s) + Incoming(s, op) <==> LosesText(s, op)
  {
    match op
    case ToolCall(call, id) =>
      if s.streaming.None? {
        SizeAdded(s.messages, Message(id, Assistant, [], false));
        CardKeepsSize(Begun(s, id), call);
      } else {
        CardKeepsSize(s, call);
      }
    case ToolCallUpdate(u) => UpdateKeepsSize(s, u);
    case Chunk(kind, pieces) => ChunkLosesIff(s, kind, pieces);
    case Begin(id) => SizeAdded(s.messages, Message(id, Assistant, [], false));
    case Delta(kind, text) => if s.streaming.Some? { BufferedSize(s, kind, text); }
    case Flush => FlushKeepsSize(s);
    case Finish => EndKeepsSize(s, None);
    case Abandon(placeholder) => EndKeepsSize(s, placeholder);
    case ResetShapes =>
    case PushUser(id, parts) => SizeAdded(s.messages, Message(id, User, parts, true));
    case Discard =>
  }
}
