/**
  The bounded session event log of electron/main/agent/pi-event-bridge.ts, with the pending
  progress queue it takes from packages/runtime/openbuddy-plugin-host/src/bounded-event-queue.ts.

  Progress events wait in the queue and re-enter the log late, out of sequence order.  The
  results say when the cursor metadata lets a reader conclude that it has missed nothing.
 */
module EventRing {
  import opened Common

  const PROGRESS: string := "tool_execution_update"
  const QUEUE_CAPACITY: nat := 512
  const MAX_GENERATION: int := 9007199254740991

  datatype Event = Event(kind: string, sessionId: Option<string>, payload: string)
  datatype Record = Record(
    generation: Option<int>, sequence: int, kind: string, sessionId: Option<string>, payload: string)
  /** `pushed` is a history variable: everything pushed into the ring since it was last cleared. */
  datatype Ring = Ring(
    max: nat, entries: seq<Record>, next: int, generation: int, pending: seq<Record>, pushed: seq<Record>)

  datatype Op =
    | FromSession(event: Event)
    | Append(record: Record)
    | Flush
    | Advance
    | Clear

  predicate IsProgress(r: Record) {
    r.kind == PROGRESS
  }

  // ---------- Operations ----------

  function LastOf(s: seq<Record>, n: nat): (r: seq<Record>)
    ensures |r| == if |s| <= n then |s| else n
  {
    if |s| <= n then s else s[|s| - n..]
  }

  function Pushed(g: Ring, r: Record): Ring {
    g.(entries := LastOf(g.entries + [r], g.max), pushed := g.pushed + [r])
  }

  function PushedAll(g: Ring, rs: seq<Record>): Ring
    decreases |rs|
  {
    if rs == [] then g else PushedAll(Pushed(g, rs[0]), rs[1..])
  }

  /** Progress is coalesced by session: the place of the queued event of the same session. */
  function FindPending(q: seq<Record>, sessionId: Option<string>): (i: nat)
    ensures i <= |q|
    ensures i < |q| ==> q[i].sessionId == sessionId
  {
    if q == [] || q[0].sessionId == sessionId then 0 else 1 + FindPending(q[1..], sessionId)
  }

  /** A newer progress event replaces the queued one; a full queue loses its oldest. */
  function Enqueued(q: seq<Record>, r: Record): seq<Record> {
    var i := FindPending(q, r.sessionId);
    if i < |q| then q[i := r]
    else if |q| < QUEUE_CAPACITY then q + [r]
    else q[1..] + [r]
  }

  function SessionOf(e: Event): Option<string> {
    if e.sessionId == Some("") then None else e.sessionId
  }

  function RecordOf(g: Ring, e: Event): Record {
    Record(Some(g.generation), g.next + 1, e.kind, SessionOf(e), e.payload)
  }

  predicate Stale(g: Ring, r: Record) {
    r.generation.Some? && r.generation.value < g.generation
  }

  function Flushed(g: Ring): Ring {
    PushedAll(g.(pending := []), g.pending)
  }

  function Step(g: Ring, op: Op): Ring {
    match op
    case FromSession(e) =>
      var r, h := RecordOf(g, e), g.(next := g.next + 1);
      if IsProgress(r) then h.(pending := Enqueued(g.pending, r)) else Pushed(h, r)
    case Append(r) =>
      if Stale(g, r) then g
      else Pushed(g, r).(next := if g.next >= r.sequence then g.next else r.sequence)
    case Flush => Flushed(g)
    case Advance => if g.generation == MAX_GENERATION then g else g.(generation := g.generation + 1)
    case Clear => g.(entries := [], pending := [], next := 0, pushed := [])
  }

  function Run(g: Ring, ops: seq<Op>): Ring
    decreases |ops|
  {
    if ops == [] then g else Run(Step(g, ops[0]), ops[1..])
  }

  function NewRing(max: nat): Ring {
    Ring(if max < 1 then 1 else max, [], 0, 0, [], [])
  }

  // ---------- Reading ----------

  /** What a query selects; `lossless` restricts it to events that are not progress. */
  datatype Filter = Filter(generation: int, sessionId: Option<string>, since: Option<int>, lossless: bool)

  predicate Matches(r: Record, f: Filter) {
    && (r.generation.None? || r.generation.value >= f.generation)
    && (f.sessionId.None? || r.sessionId == f.sessionId)
    && (f.since.None? || r.sequence > f.since.value)
    && (f.lossless ==> !IsProgress(r))
  }

  function Kept(s: seq<Record>, f: Filter): (r: seq<Record>)
    ensures |r| <= |s|
  {
    if s == [] then []
    else if Matches(s[0], f) then [s[0]] + Kept(s[1..], f)
    else Kept(s[1..], f)
  }

  /** The events a query over a flushed ring returns. */
  function SnapshotOf(g: Ring, sessionId: Option<string>, since: Option<int>, limit: Option<int>): seq<Record> {
    var n := if limit.None? then g.max
             else if limit.value > g.max then g.max else if limit.value < 1 then 1 else limit.value;
    LastOf(Kept(g.entries, Filter(g.generation, sessionId, since, false)), n)
  }

  datatype Cursor = Cursor(earliest: int, latest: int, generation: int, available: nat)

  function Replayable(g: Ring, sessionId: Option<string>): seq<Record> {
    Kept(g.entries, Filter(g.generation, sessionId, None, false))
  }

  function CursorOf(g: Ring, sessionId: Option<string>): Cursor {
    var f := Replayable(g, sessionId);
    if f == [] then Cursor(0, g.next, g.generation, 0)
    else Cursor(f[0].sequence, f[|f| - 1].sequence, g.generation, |f|)
  }

  // ---------- What every run keeps ----------

  /** Events that are not progress stand in strictly increasing sequence order. */
  ghost predicate Increasing(s: seq<Record>) {
    forall i, j :: 0 <= i < j < |s| && !IsProgress(s[i]) && !IsProgress(s[j]) ==> s[i].sequence < s[j].sequence
  }

  /** The ring is the end of what was pushed, in order, and no sequence number is ahead of the counter. */
  ghost predicate Valid(g: Ring) {
    && g.max >= 1
    && g.entries == LastOf(g.pushed, g.max)
    && Increasing(g.pushed)
    && (forall i :: 0 <= i < |g.pushed| ==> g.pushed[i].sequence <= g.next)
    && (forall i :: 0 <= i < |g.pending| ==> IsProgress(g.pending[i]) && g.pending[i].sequence <= g.next)
    && |g.pending| <= QUEUE_CAPACITY
  }

  /** An appended record keeps the order: it is dropped as stale, is progress, or comes after all others. */
  predicate InOrder(g: Ring, op: Op) {
    op.Append? ==> Stale(g, op.record) || IsProgress(op.record) || op.record.sequence > g.next
  }

  ghost predicate AllInOrder(g: Ring, ops: seq<Op>)
    decreases |ops|
  {
    ops == [] || (InOrder(g, ops[0]) && AllInOrder(Step(g, ops[0]), ops[1..]))
  }

  lemma {:induction false} PushKeepsValid(g: Ring, r: Record)
    requires Valid(g) && r.sequence <= g.next
    requires IsProgress(r) || forall i :: 0 <= i < |g.pushed| && !IsProgress(g.pushed[i]) ==> g.pushed[i].sequence < r.sequence
    ensures Valid(Pushed(g, r))
  {
    var all := g.pushed + [r];
    if |all| > g.max {
      assert LastOf(g.entries + [r], g.max) == all[|all| - g.max..];
    } else {
      assert g.entries == g.pushed;
    }
  }

  lemma {:induction false} PushAllKeepsValid(g: Ring, rs: seq<Record>)
    requires Valid(g) && forall i :: 0 <= i < |rs| ==> IsProgress(rs[i]) && rs[i].sequence <= g.next
    ensures Valid(PushedAll(g, rs))
    decreases |rs|
  {
    if rs != [] {
      PushKeepsValid(g, rs[0]);
      PushAllKeepsValid(Pushed(g, rs[0]), rs[1..]);
    }
  }

  lemma {:induction false} StepKeepsValid(g: Ring, op: Op)
    requires Valid(g) && InOrder(g, op)
    ensures Valid(Step(g, op))
  {
    match op
    case FromSession(e) =>
      var r, h := RecordOf(g, e), g.(next := g.next + 1);
      if !IsProgress(r) { PushKeepsValid(h, r); }
    case Append(r) =>
      if !Stale(g, r) {
        PushKeepsValid(g.(next := if g.next >= r.sequence then g.next else r.sequence), r);
      }
    case Flush => PushAllKeepsValid(g.(pending := []), g.pending);
    case Advance =>
    case Clear =>
  }

  /** Every run whose appended records keep the order ends with a valid ring. */
  lemma {:induction false} RunKeepsValid(g: Ring, ops: seq<Op>)
    requires Valid(g) && AllInOrder(g, ops)
    ensures Valid(Run(g, ops))
    decreases |ops|
  {
    if ops != [] {
      StepKeepsValid(g, ops[0]);
      RunKeepsValid(Step(g, ops[0]), ops[1..]);
    }
  }

  // ---------- Has a reader missed anything? ----------

  lemma {:induction false} KeptCons(h: Record, t: seq<Record>, f: Filter)
    ensures Kept([h] + t, f) == (if Matches(h, f) then [h] else []) + Kept(t, f)
  {
    assert ([h] + t)[1..] == t;
  }

  lemma {:induction false} KeptConcat(s: seq<Record>, t: seq<Record>, f: Filter)
    ensures Kept(s + t, f) == Kept(s, f) + Kept(t, f)
  {
    if s == [] {
      assert s + t == t;
    } else {
      var h, rest := s[0], s[1..];
      assert s == [h] + rest && s + t == [h] + (rest + t);
      KeptCons(h, rest, f);
      KeptCons(h, rest + t, f);
      KeptConcat(rest, t, f);
    }
  }

  lemma {:induction false} KeptMember(s: seq<Record>, f: Filter, x: Record)
    ensures x in Kept(s, f) <==> x in s && Matches(x, f)
  {
    if s != [] {
      KeptMember(s[1..], f, x);
    }
  }

  lemma {:induction false} KeptFirst(s: seq<Record>, f: Filter) returns (i: nat)
    requires Kept(s, f) != []
    ensures i < |s| && s[i] == Kept(s, f)[0]
  {
    if Matches(s[0], f) {
      i := 0;
    } else {
      i := KeptFirst(s[1..], f);
      i := i + 1;
    }
  }

  /** What the ring still holds of the events of a session after `c`, as far as they are not progress. */
  function After(generation: int, sessionId: Option<string>, c: int): Filter {
    Filter(generation, sessionId, Some(c), true)
  }

  /** The lossless events a session could replay at all. */
  function Lossless(s: seq<Record>, generation: int, sessionId: Option<string>): seq<Record> {
    Kept(s, Filter(generation, sessionId, None, true))
  }

  /** What has been pushed out of the ring again. */
  function Evicted(g: Ring): seq<Record> {
    if |g.entries| <= |g.pushed| then g.pushed[..|g.pushed| - |g.entries|] else []
  }

  /** No lossless event after the reader's position is missing from the ring. */
  predicate Complete(g: Ring, sessionId: Option<string>, c: int) {
    var f := After(g.generation, sessionId, c);
    Kept(g.entries, f) == Kept(g.pushed, f)
  }

  /**
    The ring holds every lossless event after the reader's position exactly when the last lossless
    one it has evicted was not after that position.
   */
  lemma {:induction false} CompleteIff(g: Ring, sessionId: Option<string>, c: int)
    requires Valid(g)
    ensures var gone := Lossless(Evicted(g), g.generation, sessionId);
      Complete(g, sessionId, c) <==> gone == [] || gone[|gone| - 1].sequence <= c
  {
    var f := After(g.generation, sessionId, c);
    assert g.pushed == Evicted(g) + g.entries;
    KeptConcat(Evicted(g), g.entries, f);
    assert Increasing(Evicted(g));
    NoneAfterIff(Evicted(g), g.generation, sessionId, c);
    assert Complete(g, sessionId, c) <==> |Kept(Evicted(g), f)| == 0;
  }

  lemma {:induction false} NoneAfterIff(s: seq<Record>, generation: int, sessionId: Option<string>, c: int)
    requires Increasing(s)
    ensures var all := Lossless(s, generation, sessionId);
      Kept(s, After(generation, sessionId, c)) == [] <==> all == [] || all[|all| - 1].sequence <= c
  {
    if s != [] {
      var n := |s| - 1;
      var h, t := s[..n], s[n];
      var all, f := Filter(generation, sessionId, None, true), After(generation, sessionId, c);
      assert s == h + [t];
      KeptConcat(h, [t], all);
      KeptConcat(h, [t], f);
      KeptCons(t, [], all);
      KeptCons(t, [], f);
      assert [t] + [] == [t];
      NoneAfterIff(h, generation, sessionId, c);
      if Matches(t, all) && Kept(h, all) != [] {
        LastKeptBefore(h, t, all);
      }
    }
  }

  lemma {:induction false} LastKeptBefore(s: seq<Record>, later: Record, f: Filter)
    requires Increasing(s + [later]) && !IsProgress(later) && f.lossless && Kept(s, f) != []
    ensures Kept(s, f)[|Kept(s, f)| - 1].sequence < later.sequence
  {
    var last := Kept(s, f)[|Kept(s, f)| - 1];
    KeptMember(s, f, last);
    var i :| 0 <= i < |s| && s[i] == last;
    assert (s + [later])[i] == last && (s + [later])[|s|] == later;
  }

  /** The first lossless event the reader can replay is at most one past its position. */
  predicate LooksComplete(g: Ring, sessionId: Option<string>, c: int) {
    var f := Lossless(g.entries, g.generation, sessionId);
    f != [] && f[0].sequence <= c + 1
  }

  /**
    Then the ring returns every lossless event recorded after the reader's position: each of them
    once, in order, and nothing else, whatever late progress events stand before or between them.
   */
  lemma {:induction false} CursorGuaranteesComplete(g: Ring, sessionId: Option<string>, c: int)
    requires Valid(g) && LooksComplete(g, sessionId, c)
    ensures Complete(g, sessionId, c)
  {
    CompleteIff(g, sessionId, c);
    var gone := Lossless(Evicted(g), g.generation, sessionId);
    if gone != [] {
      EvictedIsOld(g, sessionId);
    }
  }

  /** With a lossless event in front, this is the test on the cursor: something available, from the next event on. */
  lemma {:induction false} LooksCompleteIsCursorTest(g: Ring, sessionId: Option<string>, c: int)
    ensures Replayable(g, sessionId) == [] || !IsProgress(Replayable(g, sessionId)[0]) ==>
      (LooksComplete(g, sessionId, c) <==>
        CursorOf(g, sessionId).available > 0 && CursorOf(g, sessionId).earliest <= c + 1)
  {
    FirstIsLossless(g.entries, Filter(g.generation, sessionId, None, false));
  }

  lemma {:induction false} FirstIsLossless(s: seq<Record>, f: Filter)
    requires !f.lossless
    ensures var all, some := Kept(s, f), Kept(s, f.(lossless := true));
      && (all == [] ==> some == [])
      && (all != [] && !IsProgress(all[0]) ==> some != [] && some[0] == all[0])
  {
    if s != [] {
      FirstIsLossless(s[1..], f);
    }
  }

  /** The last lossless event evicted precedes the first one still held. */
  lemma {:induction false} EvictedIsOld(g: Ring, sessionId: Option<string>)
    requires Valid(g) && Lossless(g.entries, g.generation, sessionId) != []
    requires Lossless(Evicted(g), g.generation, sessionId) != []
    ensures var gone := Lossless(Evicted(g), g.generation, sessionId);
      gone[|gone| - 1].sequence < Lossless(g.entries, g.generation, sessionId)[0].sequence
  {
    var f := Filter(g.generation, sessionId, None, true);
    var i := KeptFirst(g.entries, f);
    EntryAt(g, i);
    KeptMember(g.entries, f, g.entries[i]);
    var h := Evicted(g) + [g.entries[i]];
    assert Increasing(h) by {
      forall a, b | 0 <= a < b < |h| && !IsProgress(h[a]) && !IsProgress(h[b]) ensures h[a].sequence < h[b].sequence {
        assert h[a] == g.pushed[a];
        assert b < |h| - 1 ==> h[b] == g.pushed[b];
      }
    }
    LastKeptBefore(Evicted(g), g.entries[i], f);
  }

  /** A snapshot without a limit is exactly what the ring holds for the query. */
  lemma {:induction false} UnlimitedSnapshot(g: Ring, sessionId: Option<string>, since: Option<int>)
    requires Valid(g)
    ensures SnapshotOf(g, sessionId, since, None) == Kept(g.entries, Filter(g.generation, sessionId, since, false))
  {
  }

  predicate NoProgress(s: seq<Record>) {
    forall i :: 0 <= i < |s| ==> !IsProgress(s[i])
  }

  lemma {:induction false} KeptWithoutProgress(s: seq<Record>, f: Filter)
    requires NoProgress(s)
    ensures Kept(s, f) == Kept(s, f.(lossless := true))
  {
    if s != [] {
      KeptWithoutProgress(s[1..], f);
    }
  }

  /** Without progress events the ring is strictly increasing, and it is the last pushes. */
  lemma {:induction false} IncreasingWithoutProgress(g: Ring)
    requires Valid(g) && NoProgress(g.pushed)
    ensures g.entries == LastOf(g.pushed, g.max) && NoProgress(g.entries)
    ensures forall i, j :: 0 <= i < j < |g.entries| ==> g.entries[i].sequence < g.entries[j].sequence
  {
    forall i | 0 <= i < |g.entries| ensures !IsProgress(g.entries[i]) {
      EntryAt(g, i);
    }
    forall i, j | 0 <= i < j < |g.entries| ensures g.entries[i].sequence < g.entries[j].sequence {
      EntryAt(g, i);
      EntryAt(g, j);
    }
  }

  lemma {:induction false} EntryAt(g: Ring, i: nat)
    requires Valid(g) && i < |g.entries|
    ensures |g.entries| <= |g.pushed| && g.entries[i] == g.pushed[|g.pushed| - |g.entries| + i]
  {
  }

  /**
    Without progress events, an earliest event at most one past the reader's position means that
    the snapshot from there is everything recorded since.
   */
  lemma {:induction false} CompleteWithoutProgress(g: Ring, sessionId: Option<string>, c: int)
    requires Valid(g) && NoProgress(g.pushed)
    requires CursorOf(g, sessionId).available > 0 && CursorOf(g, sessionId).earliest <= c + 1
    ensures SnapshotOf(g, sessionId, Some(c), None) == Kept(g.pushed, Filter(g.generation, sessionId, Some(c), false))
  {
    IncreasingWithoutProgress(g);
    KeptMember(g.entries, Filter(g.generation, sessionId, None, false), Replayable(g, sessionId)[0]);
    LooksCompleteIsCursorTest(g, sessionId, c);
    CursorGuaranteesComplete(g, sessionId, c);
    KeptWithoutProgress(g.entries, Filter(g.generation, sessionId, Some(c), false));
    KeptWithoutProgress(g.pushed, Filter(g.generation, sessionId, Some(c), false));
    UnlimitedSnapshot(g, sessionId, Some(c));
  }

  /** Sequence numbers without gaps, all of them replayable: the log of one session host. */
  ghost predicate Dense(g: Ring) {
    && (forall i :: 0 <= i < |g.pushed| ==> g.pushed[i].sequence == i + 1 && !IsProgress(g.pushed[i]))
    && (forall i :: 0 <= i < |g.pushed| ==> g.pushed[i].generation.None? || g.pushed[i].generation.value >= g.generation)
  }

  /** On a log without gaps the cursor test is exact, for readers of all sessions. */
  lemma {:induction false} DenseCursorExact(g: Ring, c: nat)
    requires Valid(g) && Dense(g) && g.pushed != []
    ensures CursorOf(g, None).earliest <= c + 1
        <==> Complete(g, None, c)
  {
    EntryAt(g, 0);
    assert Matches(g.entries[0], Filter(g.generation, None, None, false));
    assert Replayable(g, None)[0] == g.entries[0];
    if CursorOf(g, None).earliest <= c + 1 {
      LooksCompleteIsCursorTest(g, None, c);
      CursorGuaranteesComplete(g, None, c);
    } else {
      var missed := g.pushed[c];
      KeptMember(g.pushed, After(g.generation, None, c), missed);
      KeptMember(g.entries, After(g.generation, None, c), missed);
      forall i | 0 <= i < |g.entries| ensures g.entries[i] != missed {
        EntryAt(g, i);
      }
    }
  }

  /**
    The test on the earliest event is needed: with a late progress event in front, the cursor
    lets position 0 pass although event 2 is gone.
   */
  lemma {:induction false} LateProgressMisleads()
    ensures var ops := [FromSession(Event(PROGRESS, None, "")), FromSession(Event("message", None, "")), Flush];
      var g := Run(NewRing(1), ops);
      && AllInOrder(NewRing(1), ops)
      && CursorOf(g, None).available > 0 && CursorOf(g, None).earliest <= 0 + 1
      && !Complete(g, None, 0)
  {
    var ops := [FromSession(Event(PROGRESS, None, "")), FromSession(Event("message", None, "")), Flush];
    var p, m := Record(Some(0), 1, PROGRESS, None, ""), Record(Some(0), 2, "message", None, "");
    var g0 := NewRing(1);
    var g1 := Ring(1, [], 1, 0, [p], []);
    assert Step(g0, ops[0]) == g1;
    var g2 := Ring(1, [m], 2, 0, [p], [m]);
    assert Step(g1, ops[1]) == g2;
    var g3 := Ring(1, [p], 2, 0, [], [m, p]);
    assert Step(g2, ops[2]) == g3 by {
      var h := g2.(pending := []);
      assert Pushed(h, p) == g3;
      assert PushedAll(g3, [p][1..]) == g3;
    }
    RunThree(g0, ops);
    KeptMember(g3.pushed, After(0, None, 0), m);
    KeptMember(g3.entries, After(0, None, 0), m);
  }

  lemma RunThree(g: Ring, ops: seq<Op>)
    requires |ops| == 3
    ensures Run(g, ops) == Step(Step(Step(g, ops[0]), ops[1]), ops[2])
    ensures (forall k :: 0 <= k < 3 ==> !ops[k].Append?) ==> AllInOrder(g, ops)
  {
    var g1, rest, last := Step(g, ops[0]), ops[1..], ops[2..];
    var g2 := Step(g1, ops[1]);
    assert rest[0] == ops[1] && rest[1..] == last && last[0] == ops[2] && last[1..] == [];
    assert Run(g1, rest) == Run(g2, last);
    assert Run(g2, last) == Run(Step(g2, ops[2]), []);
    assert (forall k :: 0 <= k < 3 ==> !ops[k].Append?) ==> AllInOrder(g2, last);
    assert (forall k :: 0 <= k < 3 ==> !ops[k].Append?) ==> AllInOrder(g1, rest);
  }

  // ---------- Records, progress and queries ----------

  /** A session's event gets the next number and the present generation; a blank session id counts as none. */
  lemma {:induction false} EventIsRecorded(g: Ring, e: Event)
    ensures var r, t := RecordOf(g, e), Step(g, FromSession(e));
      && r.sequence == g.next + 1 == t.next && r.generation == Some(g.generation)
      && r.kind == e.kind && r.payload == e.payload
      && (e.sessionId.Some? && e.sessionId.value != "" ==> r.sessionId == e.sessionId)
      && (e.sessionId.None? || e.sessionId.value == "" ==> r.sessionId.None?)
      && (e.kind == "tool_execution_update" ==> t.pushed == g.pushed && t.entries == g.entries && r in t.pending)
      && (e.kind != "tool_execution_update" ==> t.pushed == g.pushed + [r] && t.pending == g.pending)
  {
    var r, q := RecordOf(g, e), g.pending;
    if IsProgress(r) {
      var i := FindPending(q, r.sessionId);
      if i < |q| {
        assert q[i := r][i] == r;
      }
    }
  }

  /** An appended record is dropped exactly when it is of an earlier generation; the counter never goes back. */
  lemma {:induction false} AppendIsPushed(g: Ring, r: Record)
    ensures var t := Step(g, Append(r));
      && (r.generation.Some? && r.generation.value < g.generation ==> t == g)
      && (r.generation.None? || r.generation.value >= g.generation ==>
            t.pushed == g.pushed + [r] && t.pending == g.pending
            && t.next >= g.next && t.next >= r.sequence && (t.next == g.next || t.next == r.sequence))
  {
  }

  /** At most one progress event waits for each session. */
  ghost predicate OnePerSession(q: seq<Record>) {
    forall i, j :: 0 <= i < j < |q| ==> q[i].sessionId != q[j].sessionId
  }

  lemma {:induction false} FindPendingFirst(q: seq<Record>, sessionId: Option<string>)
    ensures FindPending(q, sessionId) == |q| <==> forall i :: 0 <= i < |q| ==> q[i].sessionId != sessionId
  {
    if q != [] {
      FindPendingFirst(q[1..], sessionId);
      assert forall i :: 0 <= i < |q| - 1 ==> q[1..][i] == q[i + 1];
    }
  }

  /**
    The newest progress of a session takes the place of what waits for it.  That of another session
    comes last; only if 512 wait already does the oldest give way.  All others stay.
   */
  lemma {:induction false} NewestProgressWaits(q: seq<Record>, r: Record)
    requires OnePerSession(q) && |q| <= 512
    ensures var t := Enqueued(q, r);
      var known := exists i :: 0 <= i < |q| && q[i].sessionId == r.sessionId;
      && OnePerSession(t) && |t| <= 512
      && (exists i :: 0 <= i < |t| && t[i] == r)
      && (known ==> |t| == |q| && forall i :: 0 <= i < |q| ==> t[i] == (if q[i].sessionId == r.sessionId then r else q[i]))
      && (!known && |q| < 512 ==> t == q + [r])
      && (!known && |q| == 512 ==> t == q[1..] + [r])
  {
    var i, t := FindPending(q, r.sessionId), Enqueued(q, r);
    FindPendingFirst(q, r.sessionId);
    if i < |q| {
      assert t[i] == r;
    } else {
      assert t[|t| - 1] == r;
    }
  }

  /** A query without a limit returns what is held of a present generation, of the session, after the position. */
  lemma {:induction false} SnapshotHolds(g: Ring, sessionId: Option<string>, since: Option<int>, r: Record)
    requires Valid(g)
    ensures r in SnapshotOf(g, sessionId, since, None) <==>
      && r in g.entries && (r.generation.Some? ==> r.generation.value >= g.generation)
      && (sessionId.Some? ==> r.sessionId == sessionId) && (since.Some? ==> r.sequence > since.value)
  {
    UnlimitedSnapshot(g, sessionId, since);
    KeptMember(g.entries, Filter(g.generation, sessionId, since, false), r);
  }

  /** A limit keeps the newest: as many from the end as it says, at least one and at most the size of the ring. */
  lemma {:induction false} LimitKeepsNewest(g: Ring, sessionId: Option<string>, since: Option<int>, limit: int)
    requires Valid(g)
    ensures var all, some := SnapshotOf(g, sessionId, since, None), SnapshotOf(g, sessionId, since, Some(limit));
      && |some| <= |all| && some == all[|all| - |some|..]
      && (all != [] ==> some != [])
      && (1 <= limit <= |all| ==> |some| == limit) && (limit >= |all| ==> some == all)
      && (limit < 1 && all != [] ==> |some| == 1)
  {
    UnlimitedSnapshot(g, sessionId, since);
  }

  /** The cursor names the first and the last of the session's replayable records, or nothing and the counter. */
  lemma {:induction false} CursorMeaning(g: Ring, sessionId: Option<string>)
    requires Valid(g)
    ensures var c, all := CursorOf(g, sessionId), SnapshotOf(g, sessionId, None, None);
      && c.generation == g.generation && c.available == |all|
      && (all == [] ==> c.earliest == 0 && c.latest == g.next)
      && (all != [] ==> c.earliest == all[0].sequence && c.latest == all[|all| - 1].sequence)
  {
    UnlimitedSnapshot(g, sessionId, None);
  }

  /** A new generation hides the records of the one before from every query, and keeps those without one. */
  lemma {:induction false} AdvanceHides(g: Ring, sessionId: Option<string>, since: Option<int>, r: Record)
    requires Valid(g) && g.generation < MAX_GENERATION && r.generation == Some(g.generation)
    ensures var t := Step(g, Advance);
      t.generation == g.generation + 1 && t.entries == g.entries && r !in SnapshotOf(t, sessionId, since, None)
  {
    var t := Step(g, Advance);
    SnapshotHolds(t, sessionId, since, r);
  }

  /** Cleared, the log is empty and counts from one again, in the generation it was in. */
  lemma {:induction false} ClearStartsOver(g: Ring, e: Event)
    ensures var t := Step(g, Clear);
      && t.entries == [] && t.pending == [] && t.pushed == [] && t.generation == g.generation && t.max == g.max
      && RecordOf(t, e).sequence == 1
    ensures g.generation == MAX_GENERATION ==> Step(g, Advance) == g
  {
  }

  // ---------- The bridge ----------

  class EventBridge {
    const maxEntries: nat
    var entries: seq<Record>
    var nextSequence: int
    var currentGeneration: int
    var pending: seq<Record>
    ghost var pushed: seq<Record>

    ghost function Now(): Ring
      reads this
    {
      Ring(maxEntries, entries, nextSequence, currentGeneration, pending, pushed)
    }

    constructor (max: nat)
      ensures Now() == NewRing(max) && Valid(Now())
    {
      maxEntries := if max < 1 then 1 else max;
      entries, nextSequence, currentGeneration, pending, pushed := [], 0, 0, [], [];
    }

    method PushBounded(r: Record)
      modifies this`entries, this`pushed
      ensures Now() == Pushed(old(Now()), r)
    {
      entries := entries + [r];
      pushed := pushed + [r];
      if |entries| > maxEntries {
        entries := entries[|entries| - maxEntries..];
      }
    }

    method AppendFromSession(e: Event) returns (r: Record)
      modifies this
      ensures Now() == Step(old(Now()), FromSession(e))
      ensures r == RecordOf(old(Now()), e)
    {
      nextSequence := nextSequence + 1;
      r := Record(Some(currentGeneration), nextSequence, e.kind, SessionOf(e), e.payload);
      if IsProgress(r) {
        pending := Enqueued(pending, r);
      } else {
        PushBounded(r);
      }
    }

    method AppendRecord(r: Record)
      modifies this
      ensures Now() == Step(old(Now()), Append(r))
    {
      if r.generation.Some? && r.generation.value < currentGeneration {
        return;
      }
      PushBounded(r);
      nextSequence := if nextSequence >= r.sequence then nextSequence else r.sequence;
    }

    method FlushPendingProgress()
      modifies this
      ensures Now() == Flushed(old(Now()))
    {
      var drained := pending;
      pending := [];
      var i := 0;
      while i < |drained|
        invariant 0 <= i <= |drained|
        invariant PushedAll(Now(), drained[i..]) == Flushed(old(Now()))
      {
        PushBounded(drained[i]);
        assert drained[i..][1..] == drained[i + 1..];
        i := i + 1;
      }
      assert drained[i..] == [];
    }

    method Snapshot(sessionId: Option<string>, since: Option<int>, limit: Option<int>) returns (records: seq<Record>)
      modifies this
      ensures Now() == Flushed(old(Now()))
      ensures records == SnapshotOf(Now(), sessionId, since, limit)
    {
      FlushPendingProgress();
      var kept := Kept(entries, Filter(currentGeneration, sessionId, since, false));
      var n := if limit.None? then maxEntries
               else if limit.value > maxEntries then maxEntries else if limit.value < 1 then 1 else limit.value;
      records := LastOf(kept, n);
    }

    method DescribeCursor(sessionId: Option<string>) returns (cursor: Cursor)
      modifies this
      ensures Now() == Flushed(old(Now()))
      ensures cursor == CursorOf(Now(), sessionId)
    {
      FlushPendingProgress();
      var f := Kept(entries, Filter(currentGeneration, sessionId, None, false));
      if f == [] {
        return Cursor(0, nextSequence, currentGeneration, 0);
      }
      cursor := Cursor(f[0].sequence, f[|f| - 1].sequence, currentGeneration, |f|);
    }

    method AdvanceGeneration() returns (generation: Option<int>)
      modifies this`currentGeneration
      ensures Now() == Step(old(Now()), Advance)
      ensures generation.None? <==> old(currentGeneration) == MAX_GENERATION
    {
      if currentGeneration == MAX_GENERATION {
        return None;
      }
      currentGeneration := currentGeneration + 1;
      generation := Some(currentGeneration);
    }

    method ClearAll()
      modifies this
      ensures Now() == Step(old(Now()), Clear)
    {
      entries, pending, nextSequence, pushed := [], [], 0, [];
    }
  }
}
