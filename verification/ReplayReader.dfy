/**
  The reader of the event log, src/lib/agent/pi-event-replay.ts: the tests by which a renderer that
  comes back decides whether a replay has a gap, and what passing them is worth.
 */
module ReplayReader {
  import opened Common
  import opened EventRing

  // ---------- The two tests ----------

  /** The test on the cursor; it does not ask whether anything is available. */
  predicate EvictionGap(c: nat, cursor: Cursor) {
    c > 0 && c < cursor.earliest - 1
  }

  /** The replayed sequence numbers after the reader's position. */
  function SequencesAfter(entries: seq<Record>, c: nat): set<int> {
    set r | r in entries && r.sequence > c :: r.sequence
  }

  /** They start right after the position and leave none out. */
  ghost predicate Contiguous(c: nat, sequences: set<int>) {
    forall n, m :: n in sequences && c < m < n ==> m in sequences
  }

  ghost predicate Accepts(c: nat, entries: seq<Record>, cursor: Cursor) {
    !EvictionGap(c, cursor) && Contiguous(c, SequencesAfter(entries, c))
  }

  /**
    With a lossless event of the session in front, the reader's test on the cursor is the one that
    guarantees completeness, except that it lets position zero pass.
   */
  lemma {:induction false} EvictionGapIff(g: Ring, sessionId: Option<string>, c: nat)
    requires Replayable(g, sessionId) != [] && !IsProgress(Replayable(g, sessionId)[0])
    ensures EvictionGap(c, CursorOf(g, sessionId)) <==> c > 0 && !LooksComplete(g, sessionId, c)
  {
    LooksCompleteIsCursorTest(g, sessionId, c);
  }

  // ---------- The sorted walk ----------

  ghost predicate Ascending(s: seq<int>) {
    forall i, j :: 0 <= i < j < |s| ==> s[i] < s[j]
  }

  /** A number put into an ascending list, once. */
  function Inserted(s: seq<int>, n: int): seq<int> {
    if s == [] || n < s[0] then [n] + s
    else if n == s[0] then s
    else [s[0]] + Inserted(s[1..], n)
  }

  function Sorted(entries: seq<Record>, c: nat): seq<int> {
    if entries == [] then []
    else
      var rest := Sorted(entries[1..], c);
      if entries[0].sequence > c then Inserted(rest, entries[0].sequence) else rest
  }

  lemma {:induction false} InsertedIsAscending(s: seq<int>, n: int)
    requires Ascending(s)
    ensures Ascending(Inserted(s, n))
    ensures forall x :: x in Inserted(s, n) <==> x == n || x in s
  {
    if s != [] && n >= s[0] {
      InsertedIsAscending(s[1..], n);
      var rest := Inserted(s[1..], n);
      forall i | 0 <= i < |rest| && n > s[0] ensures s[0] < rest[i] {
        assert rest[i] in rest;
        assert rest[i] in s[1..] ==> exists j :: 1 <= j < |s| && s[j] == rest[i];
      }
    }
  }

  lemma {:induction false} SortedIsAscending(entries: seq<Record>, c: nat)
    ensures Ascending(Sorted(entries, c))
    ensures forall x :: x in Sorted(entries, c) <==> x in SequencesAfter(entries, c)
  {
    if entries != [] {
      SortedIsAscending(entries[1..], c);
      InsertedIsAscending(Sorted(entries[1..], c), entries[0].sequence);
      assert entries == [entries[0]] + entries[1..];
    }
  }

  /** An ascending list of numbers above `c` leaves none out exactly when it counts up from it. */
  lemma {:induction false} CountsUpIff(s: seq<int>, c: nat, sequences: set<int>)
    requires Ascending(s) && (forall x :: x in s <==> x in sequences) && forall x :: x in sequences ==> x > c
    ensures Contiguous(c, sequences) <==> forall k :: 0 <= k < |s| ==> s[k] == c + 1 + k
  {
    if Contiguous(c, sequences) {
      CountsUp(s, c, sequences, |s|);
    }
    if forall k :: 0 <= k < |s| ==> s[k] == c + 1 + k {
      forall n, m | n in sequences && c < m < n ensures m in sequences {
        var k :| 0 <= k < |s| && s[k] == n;
        assert s[m - c - 1] == m;
      }
    }
  }

  lemma {:induction false} CountsUp(s: seq<int>, c: nat, sequences: set<int>, n: nat)
    requires Ascending(s) && (forall x :: x in s <==> x in sequences) && forall x :: x in sequences ==> x > c
    requires Contiguous(c, sequences) && n <= |s|
    ensures forall k :: 0 <= k < n ==> s[k] == c + 1 + k
  {
    if n > 0 {
      CountsUp(s, c, sequences, n - 1);
      assert s[n - 1] in sequences && s[n - 1] >= c + n by {
        assert n > 1 ==> s[n - 2] == c + n - 1;
      }
      NotBeyond(s, c, sequences, n);
    }
  }

  lemma {:induction false} NotBeyond(s: seq<int>, c: nat, sequences: set<int>, n: nat)
    requires Ascending(s) && (forall x :: x in s <==> x in sequences)
    requires Contiguous(c, sequences) && 0 < n <= |s| && s[n - 1] >= c + n
    requires forall k :: 0 <= k < n - 1 ==> s[k] == c + 1 + k
    ensures s[n - 1] == c + n
  {
    assert s[n - 1] in sequences;
    assert c + n in sequences;
    var j :| 0 <= j < |s| && s[j] == c + n;
    assert j >= n - 1;
  }

  /** The reader's decision: a gap by the cursor, or a number left out of the sorted walk. */
  method DetectCoverageGap(c: nat, entries: seq<Record>, cursor: Cursor) returns (gap: bool)
    ensures gap <==> !Accepts(c, entries, cursor)
  {
    if EvictionGap(c, cursor) {
      return true;
    }
    var sequences := Sorted(entries, c);
    SortedIsAscending(entries, c);
    CountsUpIff(sequences, c, SequencesAfter(entries, c));
    var expected := c + 1;
    for k := 0 to |sequences|
      invariant expected == c + 1 + k
      invariant forall j :: 0 <= j < k ==> sequences[j] == c + 1 + j
    {
      if sequences[k] != expected {
        return true;
      }
      expected := expected + 1;
    }
    gap := false;
  }

  // ---------- What an accepted replay is worth ----------

  /** No two records carry the same number. */
  ghost predicate Numbered(s: seq<Record>) {
    forall i, j :: 0 <= i < j < |s| ==> s[i].sequence != s[j].sequence
  }

  /** Not even the progress events that still wait. */
  ghost predicate AllNumbered(g: Ring) {
    Numbered(g.pushed + g.pending)
  }

  /** An appended record that is not stale brings a new number. */
  predicate NewNumber(g: Ring, op: Op) {
    op.Append? ==> Stale(g, op.record) || op.record.sequence > g.next
  }

  ghost predicate NewNumbers(g: Ring, ops: seq<Op>)
    decreases |ops|
  {
    ops == [] || (NewNumber(g, ops[0]) && NewNumbers(Step(g, ops[0]), ops[1..]))
  }

  lemma {:induction false} NumberedWith(a: seq<Record>, b: seq<Record>, r: Record)
    requires Numbered(a + b) && forall i :: 0 <= i < |a + b| ==> (a + b)[i].sequence < r.sequence
    ensures Numbered(a + [r] + b)
  {
    var s, t := a + b, a + [r] + b;
    forall i, j | 0 <= i < j < |t| ensures t[i].sequence != t[j].sequence {
      assert i < |a| ==> t[i] == s[i];
      assert i > |a| ==> t[i] == s[i - 1];
      assert j < |a| ==> t[j] == s[j];
      assert j > |a| ==> t[j] == s[j - 1];
    }
  }

  lemma {:induction false} NumberedEnqueued(a: seq<Record>, q: seq<Record>, r: Record)
    requires Numbered(a + q) && forall i :: 0 <= i < |a + q| ==> (a + q)[i].sequence < r.sequence
    ensures Numbered(a + Enqueued(q, r))
  {
    var s, k := a + q, FindPending(q, r.sessionId);
    if k < |q| {
      assert a + Enqueued(q, r) == s[|a| + k := r];
    } else if |q| < QUEUE_CAPACITY {
      assert a + Enqueued(q, r) == s + [r];
    } else {
      var t := a + Enqueued(q, r);
      forall i, j | 0 <= i < j < |t| ensures t[i].sequence != t[j].sequence {
        assert t[i] == s[if i < |a| then i else i + 1];
        assert j < |t| - 1 ==> t[j] == s[if j < |a| then j else j + 1];
        assert j == |t| - 1 ==> t[j] == r;
      }
    }
  }

  lemma {:induction false} FlushPushes(g: Ring, rs: seq<Record>)
    ensures PushedAll(g, rs).pushed == g.pushed + rs && PushedAll(g, rs).pending == g.pending
    decreases |rs|
  {
    if rs != [] {
      FlushPushes(Pushed(g, rs[0]), rs[1..]);
      assert g.pushed + [rs[0]] + rs[1..] == g.pushed + rs;
    }
  }

  lemma {:induction false} StepKeepsNumbered(g: Ring, op: Op)
    requires Valid(g) && AllNumbered(g) && NewNumber(g, op)
    ensures AllNumbered(Step(g, op))
  {
    var s := g.pushed + g.pending;
    assert forall i :: 0 <= i < |s| ==> s[i].sequence <= g.next;
    match op
    case FromSession(e) =>
      if IsProgress(RecordOf(g, e)) {
        NumberedEnqueued(g.pushed, g.pending, RecordOf(g, e));
      } else {
        NumberedWith(g.pushed, g.pending, RecordOf(g, e));
      }
    case Append(r) => if !Stale(g, r) { NumberedWith(g.pushed, g.pending, r); }
    case Flush =>
      FlushPushes(g.(pending := []), g.pending);
      assert s + [] == s;
    case Advance =>
    case Clear =>
  }

  /** In every run whose appended records bring new numbers no two records carry the same. */
  lemma {:induction false} RunKeepsNumbered(g: Ring, ops: seq<Op>)
    requires Valid(g) && AllNumbered(g) && AllInOrder(g, ops) && NewNumbers(g, ops)
    ensures Valid(Run(g, ops)) && AllNumbered(Run(g, ops)) && Numbered(Run(g, ops).pushed)
    decreases |ops|
  {
    if ops != [] {
      EventRing.StepKeepsValid(g, ops[0]);
      StepKeepsNumbered(g, ops[0]);
      RunKeepsNumbered(Step(g, ops[0]), ops[1..]);
    } else {
      assert forall i :: 0 <= i < |g.pushed| ==> (g.pushed + g.pending)[i] == g.pushed[i];
    }
  }

  /** A lossless event of the session, recorded after the reader's position. */
  predicate Wanted(g: Ring, sessionId: Option<string>, c: nat, r: Record) {
    Matches(r, After(g.generation, sessionId, c))
  }

  /** Every such event is among the replayed ones. */
  ghost predicate Received(g: Ring, sessionId: Option<string>, c: nat, entries: seq<Record>) {
    forall i :: 0 <= i < |g.pushed| && Wanted(g, sessionId, c, g.pushed[i]) ==> g.pushed[i] in entries
  }

  /** The replay reaches as far as the number. */
  ghost predicate Reaches(entries: seq<Record>, n: int) {
    exists k :: 0 <= k < |entries| && entries[k].sequence >= n
  }

  lemma {:induction false} SnapshotPushed(g: Ring, sessionId: Option<string>, since: Option<int>, limit: Option<int>, e: Record)
    requires Valid(g) && e in SnapshotOf(g, sessionId, since, limit)
    ensures e in g.pushed && Matches(e, Filter(g.generation, sessionId, since, false))
  {
    KeptMember(g.entries, Filter(g.generation, sessionId, since, false), e);
  }

  /**
    An accepted replay, cut off by a limit or not, has brought every lossless event after the
    reader's position exactly when it reaches as far as each of them: what an accepted replay can
    miss is only newer than all that it brings.
   */
  lemma {:induction false} AcceptedIsCompleteIff(
    g: Ring, sessionId: Option<string>, c: nat, limit: Option<int>)
    requires Valid(g) && Numbered(g.pushed)
    requires Accepts(c, SnapshotOf(g, sessionId, Some(c), limit), CursorOf(g, sessionId))
    ensures var entries := SnapshotOf(g, sessionId, Some(c), limit);
      Received(g, sessionId, c, entries) <==>
        forall i :: 0 <= i < |g.pushed| && Wanted(g, sessionId, c, g.pushed[i]) ==> Reaches(entries, g.pushed[i].sequence)
  {
    var entries := SnapshotOf(g, sessionId, Some(c), limit);
    if forall i :: 0 <= i < |g.pushed| && Wanted(g, sessionId, c, g.pushed[i]) ==> Reaches(entries, g.pushed[i].sequence) {
      forall i | 0 <= i < |g.pushed| && Wanted(g, sessionId, c, g.pushed[i]) ensures g.pushed[i] in entries {
        assert Reaches(entries, g.pushed[i].sequence);
        var k :| 0 <= k < |entries| && entries[k].sequence >= g.pushed[i].sequence;
        ReachedIsReplayed(g, sessionId, c, limit, g.pushed[i], entries[k]);
      }
    }
    if Received(g, sessionId, c, entries) {
      forall i | 0 <= i < |g.pushed| && Wanted(g, sessionId, c, g.pushed[i]) ensures Reaches(entries, g.pushed[i].sequence) {
        var k :| 0 <= k < |entries| && entries[k] == g.pushed[i];
      }
    }
  }

  lemma {:induction false} ReachedIsReplayed(
    g: Ring, sessionId: Option<string>, c: nat, limit: Option<int>, r: Record, top: Record)
    requires Valid(g) && Numbered(g.pushed)
    requires Contiguous(c, SequencesAfter(SnapshotOf(g, sessionId, Some(c), limit), c))
    requires r in g.pushed && r.sequence > c
    requires top in SnapshotOf(g, sessionId, Some(c), limit) && top.sequence >= r.sequence
    ensures r in SnapshotOf(g, sessionId, Some(c), limit)
  {
    var entries := SnapshotOf(g, sessionId, Some(c), limit);
    assert top.sequence in SequencesAfter(entries, c);
    assert r.sequence in SequencesAfter(entries, c);
    var e :| e in entries && e.sequence == r.sequence;
    SnapshotPushed(g, sessionId, Some(c), limit, e);
    var i :| 0 <= i < |g.pushed| && g.pushed[i] == e;
    var j :| 0 <= j < |g.pushed| && g.pushed[j] == r;
  }

  // ---------- A condition the reader can check ----------

  lemma {:induction false} KeptIncreasing(s: seq<Record>, f: Filter)
    requires Increasing(s)
    ensures Increasing(Kept(s, f))
  {
    if s != [] {
      KeptIncreasing(s[1..], f);
      var rest := Kept(s[1..], f);
      if Matches(s[0], f) {
        forall j | 0 <= j < |rest| && !IsProgress(s[0]) && !IsProgress(rest[j]) ensures s[0].sequence < rest[j].sequence {
          KeptMember(s[1..], f, rest[j]);
          var k :| 0 <= k < |s[1..]| && s[1..][k] == rest[j];
          assert s[k + 1] == rest[j];
        }
      }
    }
  }

  /** A lossless event newer than a replayed lossless one is replayed too, for it comes later. */
  lemma {:induction false} NewerIsReplayed(
    g: Ring, sessionId: Option<string>, c: nat, limit: Option<int>, r: Record, top: Record)
    requires Valid(g) && r in g.pushed && Wanted(g, sessionId, c, r)
    requires top in SnapshotOf(g, sessionId, Some(c), limit) && !IsProgress(top) && r.sequence > top.sequence
    ensures r in SnapshotOf(g, sessionId, Some(c), limit)
  {
    var f := Filter(g.generation, sessionId, Some(c), false);
    KeptMember(g.entries, f, top);
    NewerIsHeld(g, r, top);
    KeptMember(g.entries, f, r);
    EntriesIncrease(g);
    KeptIncreasing(g.entries, f);
    var entries := SnapshotOf(g, sessionId, Some(c), limit);
    NewerInEnd(Kept(g.entries, f), |entries|, top, r);
  }

  lemma {:induction false} NewerInEnd(s: seq<Record>, n: nat, top: Record, r: Record)
    requires Increasing(s) && n <= |s| && top in s[|s| - n..] && r in s
    requires !IsProgress(top) && !IsProgress(r) && r.sequence > top.sequence
    ensures r in s[|s| - n..]
  {
    var from := |s| - n;
    var a :| 0 <= a < n && s[from..][a] == top;
    var b :| 0 <= b < |s| && s[b] == r;
    assert s[from + a] == top && b > from + a;
    assert s[from..][b - from] == r;
  }

  lemma {:induction false} EntriesIncrease(g: Ring)
    requires Valid(g)
    ensures Increasing(g.entries)
  {
    forall i, j | 0 <= i < j < |g.entries| && !IsProgress(g.entries[i]) && !IsProgress(g.entries[j])
      ensures g.entries[i].sequence < g.entries[j].sequence
    {
      EntryAt(g, i);
      EntryAt(g, j);
    }
  }

  lemma {:induction false} NewerIsHeld(g: Ring, r: Record, top: Record)
    requires Valid(g) && r in g.pushed && top in g.entries
    requires !IsProgress(r) && !IsProgress(top) && r.sequence > top.sequence
    ensures r in g.entries
  {
    var n := |g.pushed| - |g.entries|;
    var a :| 0 <= a < |g.entries| && g.entries[a] == top;
    EntryAt(g, a);
    var b :| 0 <= b < |g.pushed| && g.pushed[b] == r;
    assert b > n + a;
    EntryAt(g, b - n);
  }

  /**
    An accepted replay whose newest event is lossless has brought everything: so a reader that gets
    one needs no further test.
   */
  lemma {:induction false} AcceptedWithLosslessTop(
    g: Ring, sessionId: Option<string>, c: nat, limit: Option<int>, top: nat)
    requires Valid(g) && Numbered(g.pushed)
    requires Accepts(c, SnapshotOf(g, sessionId, Some(c), limit), CursorOf(g, sessionId))
    requires top < |SnapshotOf(g, sessionId, Some(c), limit)|
    requires var entries := SnapshotOf(g, sessionId, Some(c), limit);
      !IsProgress(entries[top]) && forall k :: 0 <= k < |entries| ==> entries[k].sequence <= entries[top].sequence
    ensures Received(g, sessionId, c, SnapshotOf(g, sessionId, Some(c), limit))
  {
    var entries := SnapshotOf(g, sessionId, Some(c), limit);
    forall i | 0 <= i < |g.pushed| && Wanted(g, sessionId, c, g.pushed[i]) ensures g.pushed[i] in entries {
      if g.pushed[i].sequence > entries[top].sequence {
        NewerIsReplayed(g, sessionId, c, limit, g.pushed[i], entries[top]);
      } else {
        ReachedIsReplayed(g, sessionId, c, limit, g.pushed[i], entries[top]);
      }
    }
  }

  /**
    An accepted replay that brings nothing is complete exactly when the last lossless event of the
    session that was evicted is not after the reader's position; the test on the cursor cannot tell,
    for it reads the same when nothing of the session is left.
   */
  lemma {:induction false} AcceptedEmptyIff(g: Ring, sessionId: Option<string>, c: nat)
    requires Valid(g) && SnapshotOf(g, sessionId, Some(c), None) == []
    ensures var gone := Lossless(Evicted(g), g.generation, sessionId);
      Received(g, sessionId, c, []) <==> gone == [] || gone[|gone| - 1].sequence <= c
  {
    var f := After(g.generation, sessionId, c);
    CompleteIff(g, sessionId, c);
    UnlimitedSnapshot(g, sessionId, Some(c));
    KeptNarrower(g.entries, Filter(g.generation, sessionId, Some(c), false));
    forall r ensures r in Kept(g.pushed, f) <==> r in g.pushed && Matches(r, f) {
      KeptMember(g.pushed, f, r);
    }
    if Kept(g.pushed, f) != [] {
      var i := KeptFirst(g.pushed, f);
      assert g.pushed[i] in Kept(g.pushed, f);
      assert Wanted(g, sessionId, c, g.pushed[i]) && g.pushed[i] !in [];
    }
    if !Received(g, sessionId, c, []) {
      var i :| 0 <= i < |g.pushed| && Wanted(g, sessionId, c, g.pushed[i]) && g.pushed[i] !in [];
      assert g.pushed[i] in Kept(g.pushed, f);
    }
  }

  lemma {:induction false} KeptNarrower(s: seq<Record>, f: Filter)
    requires Kept(s, f) == []
    ensures Kept(s, f.(lossless := true)) == []
  {
    if s != [] {
      KeptNarrower(s[1..], f);
    }
  }

  /**
    Two events of one session, then one of another in a ring of one: at position 1 the first
    session's reader is told nothing is missing, and event 2 is gone.
   */
  lemma EmptyReplayMisleads()
    ensures var a, b, q := Record(Some(0), 1, "m", Some("p"), ""), Record(Some(0), 2, "m", Some("p"), ""), Record(Some(0), 3, "m", Some("q"), "");
      var g := Ring(1, [q], 3, 0, [], [a, b, q]);
      && Valid(g) && SnapshotOf(g, Some("p"), Some(1), None) == [] && Accepts(1, [], CursorOf(g, Some("p")))
      && !Received(g, Some("p"), 1, [])
  {
    var a, b, q := Record(Some(0), 1, "m", Some("p"), ""), Record(Some(0), 2, "m", Some("p"), ""), Record(Some(0), 3, "m", Some("q"), "");
    var g := Ring(1, [q], 3, 0, [], [a, b, q]);
    assert LastOf(g.pushed, 1) == [q];
    assert !IsProgress(a) && !IsProgress(b) && !IsProgress(q);
    assert Some("q") != Some("p");
    assert !Matches(q, Filter(0, Some("p"), Some(1), false)) && !Matches(q, Filter(0, Some("p"), None, false));
    assert [q][1..] == [];
    assert Wanted(g, Some("p"), 1, g.pushed[1]);
  }

  /** The numbers are those of all sessions: an event of another one in between reads as a gap. */
  lemma OtherSessionReadsAsGap()
    ensures var a, q, b := Record(Some(0), 1, "m", Some("p"), ""), Record(Some(0), 2, "m", Some("q"), ""), Record(Some(0), 3, "m", Some("p"), "");
      var g := Ring(3, [a, q, b], 3, 0, [], [a, q, b]);
      && Valid(g) && SnapshotOf(g, Some("p"), Some(1), None) == [b] && Received(g, Some("p"), 1, [b])
      && !Accepts(1, [b], CursorOf(g, Some("p")))
  {
    var a, q, b := Record(Some(0), 1, "m", Some("p"), ""), Record(Some(0), 2, "m", Some("q"), ""), Record(Some(0), 3, "m", Some("p"), "");
    var g := Ring(3, [a, q, b], 3, 0, [], [a, q, b]);
    var f := Filter(0, Some("p"), Some(1), false);
    assert !IsProgress(a) && !IsProgress(q) && !IsProgress(b);
    assert Some("q") != Some("p");
    assert !Matches(a, f) && !Matches(q, f) && Matches(b, f);
    assert [a, q, b][1..] == [q, b] && [q, b][1..] == [b] && [b][1..] == [];
    assert Kept([b], f) == [b] && Kept([q, b], f) == [b] && Kept([a, q, b], f) == [b];
    assert b in [b];
    assert 3 in SequencesAfter([b], 1) && 2 !in SequencesAfter([b], 1);
  }
}
