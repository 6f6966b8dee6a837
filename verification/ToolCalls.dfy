/**
  Tool-call cards in the streamed transcript: the tool_call and tool_call_update cases of
  src/hooks/useAgentSession.ts, over all that can happen to the message list beneath them.

  An index maps each tool call to the cell of its card.  The results say when patching through
  the index is the same as patching the latest card found by a full scan.
 */
module ToolCalls {
  import opened Common
  import opened Transcript

  // ---------- The full scan ----------

  predicate Before(a: Loc, b: Loc) {
    a.message < b.message || (a.message == b.message && a.part < b.part)
  }

  /** The card of a tool call that was added to the transcript last. */
  ghost predicate IsLatest(ms: seq<Message>, loc: Loc, id: string) {
    CardAt(ms, loc) == Some(id) && forall l :: CardAt(ms, l) == Some(id) ==> !Before(loc, l)
  }

  function ScanParts(parts: seq<Part>, id: string): Option<nat> {
    if parts == [] then None
    else
      var n := |parts| - 1;
      if parts[n].Tool? && parts[n].call.id == id then Some(n) else ScanParts(parts[..n], id)
  }

  /** The full scan the index replaces: from the last part of the last message backwards. */
  function Scan(ms: seq<Message>, id: string): Option<Loc> {
    if ms == [] then None
    else
      var n := |ms| - 1;
      var p := ScanParts(ms[n].parts, id);
      if p.Some? then Some(Loc(n, p.value)) else Scan(ms[..n], id)
  }

  lemma {:induction false} ScanPartsMeaning(parts: seq<Part>, id: string)
    ensures var p := ScanParts(parts, id);
      && (p.Some? ==> p.value < |parts| && parts[p.value].Tool? && parts[p.value].call.id == id)
      && forall k :: (if p.Some? then p.value + 1 else 0) <= k < |parts| ==> !(parts[k].Tool? && parts[k].call.id == id)
  {
    if parts != [] {
      ScanPartsMeaning(parts[..|parts| - 1], id);
    }
  }

  /** The scan finds the latest card, and finds nothing only when there is none. */
  lemma {:induction false} ScanMeaning(ms: seq<Message>, id: string)
    ensures Scan(ms, id).Some? ==> IsLatest(ms, Scan(ms, id).value, id)
    ensures Scan(ms, id).None? ==> forall l :: CardAt(ms, l) != Some(id)
  {
    if ms != [] {
      var n := |ms| - 1;
      ScanPartsMeaning(ms[n].parts, id);
      ScanMeaning(ms[..n], id);
      if ScanParts(ms[n].parts, id).None? {
        forall l ensures CardAt(ms, l) == Some(id) <==> CardAt(ms[..n], l) == Some(id) {
        }
      }
    }
  }

  function ScannedUpdate(s: State, u: Update): State {
    var loc := Scan(s.messages, u.id);
    if loc.Some? then PatchedAt(s, loc.value, u) else s
  }

  // ---------- The invariant ----------

  ghost predicate DistinctIds(ms: seq<Message>) {
    forall i, j :: 0 <= i < j < |ms| ==> ms[i].id != ms[j].id
  }

  predicate HasTool(parts: seq<Part>) {
    exists k :: 0 <= k < |parts| && parts[k].Tool?
  }

  /** The streaming message is there, and no later message holds a card. */
  ghost predicate StreamsLast(s: State) {
    s.streaming.Some? ==>
      StreamAt(s) < |s.messages| && forall l :: CardAt(s.messages, l).Some? ==> l.message <= StreamAt(s)
  }

  ghost predicate IndexCorrect(s: State) {
    forall id :: id in s.index ==> IsLatest(s.messages, s.index[id], id)
  }

  /** Text waits only for a message that streams, and with a flush to come. */
  predicate BufferInUse(s: State) {
    s.buffer.text != "" ==> s.streaming.Some? && s.buffer.scheduled
  }

  ghost predicate Valid(s: State) {
    DistinctIds(s.messages) && StreamsLast(s) && IndexCorrect(s) && BufferInUse(s)
    && (s.bubble.Some? ==> s.bubble != s.streaming)
  }

  predicate UnusedId(s: State, id: string) {
    && (forall i :: 0 <= i < |s.messages| ==> s.messages[i].id != id)
    && s.streaming != Some(id) && s.bubble != Some(id)
  }

  ghost predicate UnusedIds(s: State, pieces: seq<Piece>) {
    && (forall i :: 0 <= i < |pieces| ==> UnusedId(s, pieces[i].freshId))
    && (forall i, j :: 0 <= i < j < |pieces| ==> pieces[i].freshId != pieces[j].freshId)
  }

  function TextsBefore(parts: seq<Part>, k: nat): nat
    requires k <= |parts|
  {
    if k == 0 then 0 else TextsBefore(parts, k - 1) + (if parts[k - 1].Text? then 1 else 0)
  }

  /** The entry's card has a text part before it in the message, so the edit moves it forward. */
  predicate MovedByEdit(s: State, i: nat, id: string)
    requires i < |s.messages| && id in s.index
  {
    var loc := s.index[id];
    loc.message == i && loc.part <= |s.messages[i].parts| && TextsBefore(s.messages[i].parts, loc.part) > 0
  }

  /** The edited message, if it is one that can be edited. */
  predicate Editable(s: State, messageId: string) {
    var i := FindMessage(s.messages, messageId);
    i < |s.messages| && s.messages[i].role == Assistant
  }

  /**
    New messages get unused ids, user messages carry no cards, a loaded list has distinct ids, and
    an edit moves no indexed card.
   */
  ghost predicate Legal(s: State, op: Op) {
    match op
    case ToolCall(_, id) => s.streaming.None? ==> UnusedId(s, id)
    case Chunk(thought, pieces) => s.streaming.None? ==> UnusedIds(s, Accepted(ShapeOf(s, thought), pieces))
    case Begin(id) => UnusedId(s, id)
    case PushUser(id, parts) => UnusedId(s, id) && !HasTool(parts)
    case Replace(ms) => DistinctIds(ms)
    case Edit(messageId, _) =>
      Editable(s, messageId) ==> forall id :: id in s.index ==> !MovedByEdit(s, FindMessage(s.messages, messageId), id)
    case _ => true
  }

  ghost predicate LegalRun(s: State, ops: seq<Op>)
    decreases |ops|
  {
    ops == [] || (Legal(s, ops[0]) && LegalRun(Step(s, ops[0]), ops[1..]))
  }

  // ---------- Every legal run keeps the invariant ----------

  lemma {:induction false} FoundAt(ms: seq<Message>, i: nat)
    requires i < |ms| && DistinctIds(ms)
    ensures FindMessage(ms, ms[i].id) == i
  {
  }

  /** Same ids, and the same cards at the same places: the index and the stream stay right. */
  lemma {:induction false} SameCardsValid(s: State, t: State)
    requires Valid(s) && t.index == s.index && t.bubble == s.bubble && (t.streaming == s.streaming || t.streaming == None)
    requires |t.messages| == |s.messages| && forall i :: 0 <= i < |s.messages| ==> t.messages[i].id == s.messages[i].id
    requires forall l :: CardAt(t.messages, l) == CardAt(s.messages, l)
    requires BufferInUse(t)
    ensures Valid(t)
  {
    if t.streaming.Some? {
      FoundAt(t.messages, StreamAt(s));
    }
    forall id | id in t.index ensures IsLatest(t.messages, t.index[id], id) {
      assert IsLatest(s.messages, s.index[id], id);
    }
  }

  /** A message without cards at the end changes nothing for the cards. */
  lemma {:induction false} AddedMessageValid(s: State, t: State, m: Message)
    requires Valid(s) && UnusedId(s, m.id) && !HasTool(m.parts) && BufferInUse(t)
    requires t.messages == s.messages + [m] && t.index == s.index
    requires (t.streaming == s.streaming && t.bubble == Some(m.id)) || (t.streaming == Some(m.id) && t.bubble == s.bubble)
    ensures Valid(t)
  {
    forall l ensures CardAt(t.messages, l) == CardAt(s.messages, l) {
    }
    if t.streaming.Some? {
      FoundAt(t.messages, if t.streaming == Some(m.id) then |s.messages| else StreamAt(s));
    }
    forall id | id in t.index ensures IsLatest(t.messages, t.index[id], id) {
      assert IsLatest(s.messages, s.index[id], id);
    }
  }

  lemma {:induction false} BegunValid(s: State, id: string)
    requires Valid(s) && UnusedId(s, id)
    ensures Valid(Begun(s, id))
    ensures forall l :: CardAt(Begun(s, id).messages, l) == CardAt(s.messages, l)
  {
    AddedMessageValid(s, Begun(s, id), Message(id, Assistant, [], false));
  }

  lemma {:induction false} CardedValid(s: State, call: Call)
    requires Valid(s) && s.streaming.Some?
    ensures Valid(Carded(s, call))
    ensures IsLatest(Carded(s, call).messages, Carded(s, call).index[call.id], call.id)
  {
    var i := StreamAt(s);
    var t, loc := Carded(s, call), Loc(i, |s.messages[i].parts|);
    forall l ensures CardAt(t.messages, l) == if l == loc then Some(call.id) else CardAt(s.messages, l) {
    }
    FoundAt(t.messages, i);
    forall id | id in t.index ensures IsLatest(t.messages, t.index[id], id) {
      if id != call.id {
        assert IsLatest(s.messages, s.index[id], id);
      }
    }
  }

  lemma {:induction false} PatchedValid(s: State, loc: Loc, u: Update)
    requires Valid(s)
    ensures Valid(PatchedAt(s, loc, u))
  {
    SameCardsValid(s, PatchedAt(s, loc, u));
  }

  lemma {:induction false} AppendedCards(s: State, thought: bool, text: string, l: Loc)
    ensures CardAt(Appended(s, thought, text).messages, l) == CardAt(s.messages, l)
  {
  }

  lemma {:induction false} FlushedCards(s: State, l: Loc)
    ensures CardAt(Flushed(s).messages, l) == CardAt(s.messages, l)
  {
    AppendedCards(s.(buffer := Buffer("", s.buffer.thought, false)), s.buffer.thought, s.buffer.text, l);
  }

  lemma {:induction false} FlushedValid(s: State)
    requires Valid(s)
    ensures Valid(Flushed(s))
  {
    forall l ensures CardAt(Flushed(s).messages, l) == CardAt(s.messages, l) {
      FlushedCards(s, l);
    }
    SameCardsValid(s, Flushed(s));
  }

  lemma {:induction false} BufferedCards(s: State, thought: bool, text: string, l: Loc)
    ensures CardAt(Buffered(s, thought, text).messages, l) == CardAt(s.messages, l)
    ensures Buffered(s, thought, text).index == s.index
  {
    FlushedCards(s, l);
  }

  lemma {:induction false} BufferedValid(s: State, thought: bool, text: string)
    requires Valid(s)
    ensures Valid(Buffered(s, thought, text))
  {
    if s.streaming.Some? {
      var t := if thought == s.buffer.thought then s else Flushed(s);
      FlushedValid(s);
      SameCardsValid(t, Buffered(s, thought, text));
    }
  }

  /** Buffering text for a message just begun leaves the ids that were not drawn unused. */
  lemma {:induction false} SpreadUnused(s: State, thought: bool, pieces: seq<Piece>)
    requires pieces != [] && UnusedIds(s, pieces)
    ensures UnusedIds(Buffered(Begun(s, pieces[0].freshId), thought, pieces[0].text), pieces[1..])
  {
    var t, rest := Buffered(Begun(s, pieces[0].freshId), thought, pieces[0].text), pieces[1..];
    forall i | 0 <= i < |rest| ensures UnusedId(t, rest[i].freshId) {
      assert rest[i] == pieces[i + 1] && UnusedId(s, pieces[i + 1].freshId);
    }
  }

  /** The state after the first of the parts. */
  function FirstSpread(s: State, thought: bool, open: bool, pieces: seq<Piece>): State
    requires pieces != []
  {
    Buffered(if open then s else Begun(s, pieces[0].freshId), thought, pieces[0].text)
  }

  lemma {:induction false} FirstSpreadValid(s: State, thought: bool, open: bool, pieces: seq<Piece>)
    requires Valid(s) && (!open ==> UnusedIds(s, pieces)) && pieces != []
    ensures var t := FirstSpread(s, thought, open, pieces);
      Valid(t) && t.index == s.index
  {
    if open {
      BufferedValid(s, thought, pieces[0].text);
    } else {
      assert UnusedId(s, pieces[0].freshId);
      BegunValid(s, pieces[0].freshId);
      BufferedValid(Begun(s, pieces[0].freshId), thought, pieces[0].text);
    }
  }

  lemma {:induction false} FirstSpreadCards(s: State, thought: bool, open: bool, pieces: seq<Piece>, l: Loc)
    requires pieces != []
    ensures CardAt(FirstSpread(s, thought, open, pieces).messages, l) == CardAt(s.messages, l)
  {
    BufferedCards(if open then s else Begun(s, pieces[0].freshId), thought, pieces[0].text, l);
  }

  lemma {:induction false} SpreadCards(s: State, thought: bool, open: bool, pieces: seq<Piece>, l: Loc)
    ensures CardAt(Spread(s, thought, open, pieces).messages, l) == CardAt(s.messages, l)
    decreases |pieces|
  {
    if pieces != [] {
      FirstSpreadCards(s, thought, open, pieces, l);
      SpreadCards(FirstSpread(s, thought, open, pieces), thought, open, pieces[1..], l);
    }
  }

  lemma {:induction false} SpreadValid(s: State, thought: bool, open: bool, pieces: seq<Piece>)
    requires Valid(s) && (!open ==> UnusedIds(s, pieces))
    ensures Valid(Spread(s, thought, open, pieces)) && Spread(s, thought, open, pieces).index == s.index
    decreases |pieces|
  {
    if pieces != [] {
      FirstSpreadValid(s, thought, open, pieces);
      if !open { SpreadUnused(s, thought, pieces); }
      SpreadValid(FirstSpread(s, thought, open, pieces), thought, open, pieces[1..]);
    }
  }

  lemma {:induction false} ChunkedValid(s: State, thought: bool, pieces: seq<Piece>)
    requires Valid(s) && Legal(s, Chunk(thought, pieces))
    ensures Valid(Chunked(s, thought, pieces)) && Chunked(s, thought, pieces).index == s.index
    ensures forall l :: CardAt(Chunked(s, thought, pieces).messages, l) == CardAt(s.messages, l)
  {
    var shape := ShapeOf(s, thought);
    var t := WithShape(s, thought, Latched(shape, pieces));
    SameCardsValid(s, t);
    forall id | UnusedId(s, id) ensures UnusedId(t, id) { }
    SpreadValid(t, thought, s.streaming.Some?, Accepted(shape, pieces));
    forall l ensures CardAt(Chunked(s, thought, pieces).messages, l) == CardAt(s.messages, l) {
      SpreadCards(t, thought, s.streaming.Some?, Accepted(shape, pieces), l);
    }
  }

  lemma {:induction false} FinishedCards(s: State, placeholder: Option<string>, l: Loc)
    ensures CardAt(Finished(s, placeholder).messages, l) == CardAt(s.messages, l)
  {
  }

  lemma {:induction false} EndedValid(s: State, placeholder: Option<string>)
    requires Valid(s)
    ensures Valid(Finished(Flushed(s), placeholder))
  {
    FlushedValid(s);
    var f, t := Flushed(s), Finished(Flushed(s), placeholder);
    forall l ensures CardAt(t.messages, l) == CardAt(f.messages, l) {
      FinishedCards(f, placeholder, l);
    }
    SameCardsValid(f, t);
  }

  lemma {:induction false} WithoutMessageMember(ms: seq<Message>, id: string, m: Message)
    ensures m in WithoutMessage(ms, id) <==> m in ms && m.id != id
  {
    if ms != [] {
      WithoutMessageMember(ms[1..], id, m);
    }
  }

  lemma {:induction false} WithoutMessageIds(ms: seq<Message>, id: string)
    requires DistinctIds(ms)
    ensures DistinctIds(WithoutMessage(ms, id))
  {
    if ms != [] {
      WithoutMessageIds(ms[1..], id);
      var rest := WithoutMessage(ms[1..], id);
      forall k | 0 <= k < |rest| ensures rest[k].id != ms[0].id {
        WithoutMessageMember(ms[1..], id, rest[k]);
        var j :| 0 <= j < |ms[1..]| && ms[1..][j] == rest[k];
        assert ms[j + 1] == rest[k];
      }
    }
  }

  lemma {:induction false} WithoutMessageTail(ms: seq<Message>, id: string, i: nat)
    requires DistinctIds(ms) && i < |ms| && ms[i].id != id
    requires forall j :: i < j < |ms| ==> !HasTool(ms[j].parts)
    ensures var r := WithoutMessage(ms, id);
      FindMessage(r, ms[i].id) < |r|
        && forall j :: FindMessage(r, ms[i].id) < j < |r| ==> !HasTool(r[j].parts)
  {
    if i > 0 {
      WithoutMessageTail(ms[1..], id, i - 1);
    } else {
      var rest := WithoutMessage(ms[1..], id);
      forall j | 0 <= j < |rest| ensures !HasTool(rest[j].parts) {
        WithoutMessageMember(ms[1..], id, rest[j]);
        var k :| 0 <= k < |ms[1..]| && ms[1..][k] == rest[j];
        assert ms[k + 1] == rest[j];
      }
    }
  }

  lemma {:induction false} PoppedValid(s: State)
    requires Valid(s)
    ensures Valid(Step(s, PopOptimistic))
  {
    if s.bubble.Some? {
      WithoutMessageIds(s.messages, s.bubble.value);
      if s.streaming.Some? {
        var i := StreamAt(s);
        forall j | i < j < |s.messages| ensures !HasTool(s.messages[j].parts) {
          forall k | 0 <= k < |s.messages[j].parts| ensures !s.messages[j].parts[k].Tool? {
            assert CardAt(s.messages, Loc(j, k)).Some? ==> j <= i;
          }
        }
        WithoutMessageTail(s.messages, s.bubble.value, i);
      }
    }
  }

  lemma {:induction false} StepKeepsValid(s: State, op: Op)
    requires Valid(s) && Legal(s, op)
    ensures Valid(Step(s, op))
  {
    match op
    case ToolCall(call, id) =>
      if s.streaming.None? {
        BegunValid(s, id);
        CardedValid(Begun(s, id), call);
      } else {
        CardedValid(s, call);
      }
    case ToolCallUpdate(u) => if u.id in s.index { PatchedValid(s, s.index[u.id], u); }
    case Chunk(thought, pieces) => ChunkedValid(s, thought, pieces);
    case Begin(id) => BegunValid(s, id);
    case Delta(thought, text) => BufferedValid(s, thought, text);
    case Flush => FlushedValid(s);
    case Finish => EndedValid(s, None);
    case Abandon(placeholder) => EndedValid(s, placeholder);
    case ResetShapes => SameCardsValid(s, Step(s, op));
    case PushUser(id, parts) => AddedMessageValid(s, Step(s, op), Message(id, User, parts, true));
    case PopOptimistic => PoppedValid(s);
    case Replace(_) =>
    case Discard => SameCardsValid(s, Step(s, op));
    case Edit(messageId, markdown) => if Editable(s, messageId) { EditedValid(s, messageId, markdown); }
  }

  /** From an empty transcript every legal run keeps each index entry on the latest card of its tool call. */
  lemma {:induction false} RunKeepsValid(s: State, ops: seq<Op>)
    requires Valid(s) && LegalRun(s, ops)
    ensures Valid(Run(s, ops))
    decreases |ops|
  {
    if ops != [] {
      StepKeepsValid(s, ops[0]);
      RunKeepsValid(Step(s, ops[0]), ops[1..]);
    }
  }

  // ---------- The index agrees with the scan ----------

  lemma {:induction false} LatestIsUnique(ms: seq<Message>, a: Loc, b: Loc, id: string)
    requires IsLatest(ms, a, id) && IsLatest(ms, b, id)
    ensures a == b
  {
  }

  /** The update says nothing that the card at the location does not show already. */
  predicate NothingNew(ms: seq<Message>, loc: Loc, u: Update)
    requires CardAt(ms, loc).Some?
  {
    PatchedCall(ms[loc.message].parts[loc.part].call, u) == ms[loc.message].parts[loc.part].call
  }

  /**
    An update through the index is the update of the latest card exactly when the tool call is
    indexed, or has no card, or the update brings nothing new for its latest card: only calls
    whose entry was dropped with the index are missed.
   */
  lemma {:induction false} IndexAgreesIff(s: State, u: Update)
    requires Valid(s)
    ensures Scan(s.messages, u.id).Some? ==> CardAt(s.messages, Scan(s.messages, u.id).value).Some?
    ensures IndexedUpdate(s, u) == ScannedUpdate(s, u)
        <==> || u.id in s.index || Scan(s.messages, u.id).None?
             || NothingNew(s.messages, Scan(s.messages, u.id).value, u)
  {
    ScanMeaning(s.messages, u.id);
    var loc := Scan(s.messages, u.id);
    if u.id in s.index {
      assert IsLatest(s.messages, s.index[u.id], u.id);
      LatestIsUnique(s.messages, s.index[u.id], loc.value, u.id);
    } else if loc.Some? {
      PatchedSameIff(s, loc.value, u);
    }
  }

  lemma {:induction false} PatchedSameIff(s: State, loc: Loc, u: Update)
    requires CardAt(s.messages, loc).Some?
    ensures PatchedAt(s, loc, u) == s <==> NothingNew(s.messages, loc, u)
  {
    var m := s.messages[loc.message];
    var t := PatchedAt(s, loc, u);
    assert t.messages[loc.message].parts[loc.part] == Tool(PatchedCall(m.parts[loc.part].call, u));
    if NothingNew(s.messages, loc, u) {
      assert t.messages[loc.message].parts == m.parts;
      assert t.messages == s.messages;
    }
  }

  predicate TailGrowing(op: Op) {
    !op.PopOptimistic? && !op.Replace? && !op.Edit?
  }

  ghost predicate AllIndexed(s: State) {
    forall l :: CardAt(s.messages, l).Some? ==> CardAt(s.messages, l).value in s.index
  }

  /** The step and the run with the full scan in the place of the index. */
  function ScannedStep(s: State, op: Op): State {
    if op.ToolCallUpdate? then ScannedUpdate(s, op.update) else Step(s, op)
  }

  function ScannedRun(s: State, ops: seq<Op>): State
    decreases |ops|
  {
    if ops == [] then s else ScannedRun(ScannedStep(s, ops[0]), ops[1..])
  }

  lemma {:induction false} CardedOrigin(s: State, call: Call, l: Loc)
    ensures CardAt(Carded(s, call).messages, l) == CardAt(s.messages, l)
      || (CardAt(Carded(s, call).messages, l) == Some(call.id) && call.id in Carded(s, call).index)
    ensures s.index.Keys <= Carded(s, call).index.Keys
  {
  }

  lemma {:induction false} PatchedCards(s: State, u: Update, l: Loc)
    ensures CardAt(IndexedUpdate(s, u).messages, l) == CardAt(s.messages, l) && IndexedUpdate(s, u).index == s.index
  {
  }

  /** A card after a step of a growing transcript was there before, or is the one just added. */
  lemma {:induction false} CardOrigin(s: State, op: Op, l: Loc)
    requires Valid(s) && Legal(s, op) && TailGrowing(op)
    ensures CardAt(Step(s, op).messages, l).Some? ==>
      || CardAt(s.messages, l) == CardAt(Step(s, op).messages, l)
      || CardAt(Step(s, op).messages, l).value in Step(s, op).index
    ensures s.index.Keys <= Step(s, op).index.Keys
  {
    match op
    case ToolCall(call, id) => CardedOrigin(if s.streaming.None? then Begun(s, id) else s, call, l);
    case ToolCallUpdate(u) => PatchedCards(s, u, l);
    case Chunk(thought, pieces) => ChunkedValid(s, thought, pieces);
    case Begin(_) =>
    case Delta(thought, text) => BufferedCards(s, thought, text, l);
    case Flush => FlushedCards(s, l);
    case Finish =>
      FlushedCards(s, l);
      FinishedCards(Flushed(s), None, l);
    case Abandon(placeholder) =>
      FlushedCards(s, l);
      FinishedCards(Flushed(s), placeholder, l);
    case ResetShapes =>
    case PushUser(_, _) =>
    case Discard =>
  }

  /**
    Over every run of a growing transcript the index is a faithful fast form: the run is the one
    that finds each card by a full scan.
   */
  lemma {:induction false} IndexRefinesScan(s: State, ops: seq<Op>)
    requires Valid(s) && AllIndexed(s) && LegalRun(s, ops) && forall k :: 0 <= k < |ops| ==> TailGrowing(ops[k])
    ensures Run(s, ops) == ScannedRun(s, ops) && AllIndexed(Run(s, ops))
    decreases |ops|
  {
    if ops != [] {
      var op := ops[0];
      assert TailGrowing(op);
      if op.ToolCallUpdate? {
        ScanMeaning(s.messages, op.update.id);
        IndexAgreesIff(s, op.update);
      }
      var t := Step(s, op);
      forall l | CardAt(t.messages, l).Some? ensures CardAt(t.messages, l).value in t.index {
        CardOrigin(s, op, l);
      }
      StepKeepsValid(s, op);
      IndexRefinesScan(t, ops[1..]);
    }
  }

  // ---------- Completion times ----------

  /** A card that is completed stays where it is and keeps its times; a partial result stays marked so. */
  ghost predicate Keeps(s: State, t: State, l: Loc) {
    CardAt(s.messages, l).Some? ==>
      && CardAt(t.messages, l) == CardAt(s.messages, l)
      && var before, after := s.messages[l.message].parts[l.part].call, t.messages[l.message].parts[l.part].call;
      && after.startedAt == before.startedAt
      && (before.completedAt.Some? ==> after.completedAt == before.completedAt)
      && (before.partial ==> after.partial)
  }

  lemma {:induction false} FlushedKeeps(s: State, l: Loc)
    ensures Keeps(s, Flushed(s), l)
  {
  }

  lemma {:induction false} BufferedKeeps(s: State, thought: bool, text: string, l: Loc)
    ensures Keeps(s, Buffered(s, thought, text), l)
  {
    FlushedKeeps(s, l);
  }

  lemma {:induction false} SpreadKeeps(s: State, thought: bool, open: bool, pieces: seq<Piece>, l: Loc)
    ensures Keeps(s, Spread(s, thought, open, pieces), l)
    decreases |pieces|
  {
    if pieces != [] {
      var t := if open then s else Begun(s, pieces[0].freshId);
      BufferedKeeps(t, thought, pieces[0].text, l);
      SpreadKeeps(Buffered(t, thought, pieces[0].text), thought, open, pieces[1..], l);
    }
  }

  lemma {:induction false} FinishedKeeps(s: State, placeholder: Option<string>, l: Loc)
    ensures Keeps(s, Finished(s, placeholder), l)
  {
  }

  lemma {:induction false} CardedKeeps(s: State, call: Call, freshId: string, l: Loc)
    ensures Keeps(s, Step(s, ToolCall(call, freshId)), l)
  {
  }

  lemma {:induction false} UpdateKeeps(s: State, u: Update, l: Loc)
    ensures Keeps(s, IndexedUpdate(s, u), l)
  {
  }

  lemma {:induction false} StepKeepsCards(s: State, op: Op, l: Loc)
    requires TailGrowing(op)
    ensures Keeps(s, Step(s, op), l)
  {
    match op
    case ToolCall(call, id) => CardedKeeps(s, call, id, l);
    case ToolCallUpdate(u) => UpdateKeeps(s, u, l);
    case Chunk(thought, pieces) =>
      var t := WithShape(s, thought, Latched(ShapeOf(s, thought), pieces));
      SpreadKeeps(t, thought, s.streaming.Some?, Accepted(ShapeOf(s, thought), pieces), l);
    case Begin(_) =>
    case Delta(thought, text) => BufferedKeeps(s, thought, text, l);
    case Flush => FlushedKeeps(s, l);
    case Finish =>
      FlushedKeeps(s, l);
      FinishedKeeps(Flushed(s), None, l);
    case Abandon(placeholder) =>
      FlushedKeeps(s, l);
      FinishedKeeps(Flushed(s), placeholder, l);
    case ResetShapes =>
    case PushUser(_, _) =>
    case Discard =>
  }

  /** Once set, a card's completion time never changes while the transcript only grows. */
  lemma {:induction false} CompletionIsFrozen(s: State, ops: seq<Op>, l: Loc)
    requires forall k :: 0 <= k < |ops| ==> TailGrowing(ops[k])
    ensures Keeps(s, Run(s, ops), l)
    decreases |ops|
  {
    if ops != [] {
      StepKeepsCards(s, ops[0], l);
      CompletionIsFrozen(Step(s, ops[0]), ops[1..], l);
    }
  }

  // ---------- Editing an answer ----------

  lemma {:induction false} NonTextAt(parts: seq<Part>, k: nat)
    requires k < |parts| && !parts[k].Text?
    ensures TextsBefore(parts, k) <= k
    ensures k - TextsBefore(parts, k) < |NonText(parts)| && NonText(parts)[k - TextsBefore(parts, k)] == parts[k]
  {
    var n := |parts| - 1;
    TextsBeforeAll(parts);
    if k < n {
      NonTextAt(parts[..n], k);
      TextsBeforePrefix(parts, n, k);
    }
  }

  lemma {:induction false} TextsBeforePrefix(parts: seq<Part>, n: nat, k: nat)
    requires k <= n <= |parts|
    ensures TextsBefore(parts[..n], k) == TextsBefore(parts, k)
  {
    if k > 0 {
      TextsBeforePrefix(parts, n, k - 1);
    }
  }

  lemma {:induction false} TextsBeforeAll(parts: seq<Part>)
    ensures TextsBefore(parts, |parts|) <= |parts|
    ensures |NonText(parts)| == |parts| - TextsBefore(parts, |parts|)
    ensures parts != [] ==> TextsBefore(parts, |parts| - 1) <= |parts| - 1
    ensures parts != [] ==> |NonText(parts[..|parts| - 1])| == |parts| - 1 - TextsBefore(parts, |parts| - 1)
  {
    if parts != [] {
      var n := |parts| - 1;
      TextsBeforeAll(parts[..n]);
      TextsBeforePrefix(parts, n, n);
    }
  }

  /** Where a part that survived the edit was before. */
  lemma {:induction false} OriginOf(parts: seq<Part>, q: nat) returns (k: nat)
    requires q < |NonText(parts)|
    ensures k < |parts| && NonText(parts)[q] == parts[k] && !parts[k].Text?
    ensures q == k - TextsBefore(parts, k)
  {
    var n := |parts| - 1;
    TextsBeforeAll(parts);
    if q < |NonText(parts[..n])| {
      k := OriginOf(parts[..n], q);
      TextsBeforePrefix(parts, n, k);
    } else {
      k := n;
    }
  }

  lemma {:induction false} EditedCards(s: State, messageId: string, markdown: string, l: Loc) returns (from: Loc)
    requires Editable(s, messageId)
    requires CardAt(Edited(s, messageId, markdown).messages, l).Some?
    ensures CardAt(s.messages, from) == CardAt(Edited(s, messageId, markdown).messages, l)
    ensures from.message == l.message && from.part >= l.part
    ensures l.message == FindMessage(s.messages, messageId) ==>
      from.part <= |s.messages[l.message].parts| && l.part == from.part - TextsBefore(s.messages[l.message].parts, from.part)
  {
    from := l;
    if l.message == FindMessage(s.messages, messageId) {
      var k := OriginOf(s.messages[l.message].parts, l.part);
      from := Loc(l.message, k);
    }
  }

  /**
    Editing an answer leaves the index right exactly when no text part stood before an indexed
    card of that message; otherwise the entry misses its card.
   */
  lemma {:induction false} EditKeepsIndexIff(s: State, messageId: string, markdown: string)
    requires Valid(s)
    requires Editable(s, messageId)
    ensures IndexCorrect(Edited(s, messageId, markdown))
        <==> forall id :: id in s.index ==> !MovedByEdit(s, FindMessage(s.messages, messageId), id)
  {
    var i, t := FindMessage(s.messages, messageId), Edited(s, messageId, markdown);
    forall id | id in s.index
      ensures IsLatest(t.messages, s.index[id], id) <==> !MovedByEdit(s, i, id)
    {
      EntryAfterEdit(s, messageId, markdown, id);
    }
  }

  lemma {:induction false} EntryAfterEdit(s: State, messageId: string, markdown: string, id: string)
    requires Valid(s) && id in s.index
    requires Editable(s, messageId)
    ensures IsLatest(Edited(s, messageId, markdown).messages, s.index[id], id)
        <==> !MovedByEdit(s, FindMessage(s.messages, messageId), id)
  {
    assert IsLatest(s.messages, s.index[id], id);
    if MovedByEdit(s, FindMessage(s.messages, messageId), id) {
      if CardAt(Edited(s, messageId, markdown).messages, s.index[id]) == Some(id) {
        var from := EditedCards(s, messageId, markdown, s.index[id]);
      }
    } else {
      UnmovedStays(s, messageId, markdown, id);
    }
  }

  lemma {:induction false} UnmovedStays(s: State, messageId: string, markdown: string, id: string)
    requires Valid(s) && id in s.index && Editable(s, messageId)
    requires !MovedByEdit(s, FindMessage(s.messages, messageId), id)
    ensures IsLatest(Edited(s, messageId, markdown).messages, s.index[id], id)
  {
    var t, loc := Edited(s, messageId, markdown), s.index[id];
    assert IsLatest(s.messages, loc, id);
    if loc.message == FindMessage(s.messages, messageId) {
      NonTextAt(s.messages[loc.message].parts, loc.part);
    }
    forall l | CardAt(t.messages, l) == Some(id) ensures !Before(loc, l) {
      var from := EditedCards(s, messageId, markdown, l);
      assert !Before(loc, from);
    }
  }

  lemma {:induction false} EditedValid(s: State, messageId: string, markdown: string)
    requires Valid(s) && Editable(s, messageId)
    requires forall id :: id in s.index ==> !MovedByEdit(s, FindMessage(s.messages, messageId), id)
    ensures Valid(Edited(s, messageId, markdown))
  {
    var t := Edited(s, messageId, markdown);
    EditKeepsIndexIff(s, messageId, markdown);
    if s.streaming.Some? {
      FoundAt(t.messages, StreamAt(s));
      forall l | CardAt(t.messages, l).Some? ensures l.message <= StreamAt(t) {
        var from := EditedCards(s, messageId, markdown, l);
      }
    }
  }

  /** The card that an edit moves forward to a place. */
  predicate SlidesTo(parts: seq<Part>, k: nat, place: nat) {
    k < |parts| && parts[k].Tool? && TextsBefore(parts, k) <= k && k - TextsBefore(parts, k) == place
  }

  lemma {:induction false} SlidFrom(s: State, messageId: string, markdown: string, id: string) returns (k: nat)
    requires Valid(s) && Editable(s, messageId) && id in s.index
    requires s.index[id].message == FindMessage(s.messages, messageId)
    requires var card := CardAt(Edited(s, messageId, markdown).messages, s.index[id]); card.Some? && card != Some(id)
    ensures s.index[id].part < k && SlidesTo(s.messages[s.index[id].message].parts, k, s.index[id].part)
  {
    var loc := s.index[id];
    assert IsLatest(s.messages, loc, id);
    var from := EditedCards(s, messageId, markdown, loc);
    k := from.part;
  }

  /**
    After an edit, an update of an indexed call patches the card of another call exactly when that
    card has slid into the place the index still names: it came later in the message, and the texts
    before it make up the difference.
   */
  lemma {:induction false} EditMisleadsUpdateIff(s: State, messageId: string, markdown: string, u: Update)
    requires Valid(s) && Editable(s, messageId) && u.id in s.index
    requires s.index[u.id].message == FindMessage(s.messages, messageId)
    ensures IndexedUpdate(Edited(s, messageId, markdown), u) == PatchedAt(Edited(s, messageId, markdown), s.index[u.id], u)
    ensures var t, loc := Edited(s, messageId, markdown), s.index[u.id];
      var other := CardAt(t.messages, loc).Some? && CardAt(t.messages, loc) != Some(u.id);
      other <==> exists k :: loc.part < k && SlidesTo(s.messages[loc.message].parts, k, loc.part)
  {
    var t, loc := Edited(s, messageId, markdown), s.index[u.id];
    var parts := s.messages[loc.message].parts;
    assert IsLatest(s.messages, loc, u.id);
    if CardAt(t.messages, loc).Some? && CardAt(t.messages, loc) != Some(u.id) {
      var k := SlidFrom(s, messageId, markdown, u.id);
    }
    if k :| loc.part < k && SlidesTo(parts, k, loc.part) {
      NonTextAt(parts, k);
      assert CardAt(s.messages, Loc(loc.message, k)) == Some(parts[k].call.id);
      assert Before(loc, Loc(loc.message, k));
    }
  }
}
