/**
  Leases on sessions shared by several surfaces: electron/main/agent/multi-surface-session.ts.

  The registry is a value with functions for its operations; class `SessionRegistry` updates its
  maps and sets the way the source does.  `calls` lists the calls of the dispose callback, and
  `ends` is a history variable: how each generation of a session stopped being live.
 */
module Leases {
  import opened Common

  /** A live session: the surfaces that hold it.  A disposed record leaves the map at once. */
  datatype Live = Live(surfaces: set<string>, generation: nat)
  datatype End = Disposed | Replaced | Dropped
  datatype Registry = Registry(
    sessions: map<string, Live>,
    generations: map<string, nat>,
    disposed: set<string>,
    calls: seq<(string, nat)>,
    ends: map<(string, nat), End>
  )

  datatype Code = SessionDisposed | GenerationMismatch | DuplicateRelease | UnknownSession | EmptyIdentity
  datatype Acquisition = Lease(sessionId: string, surfaceId: string, generation: nat) | Refused(code: Code)
  datatype ReleaseResult = Released | NotReleased(code: Code)

  datatype Op =
    | Acquire(sessionId: string, surfaceId: string)
    | Reconnect(sessionId: string, surfaceId: string)
    | ReleaseSurface(sessionId: string, surfaceId: string, expected: Option<nat>)
    | Reset

  // ---------- Operations ----------

  predicate Space(c: char) {
    c in " \t\n\r"
  }

  function Trimmed(s: string): string {
    if s == "" then s
    else if Space(s[0]) then Trimmed(s[1..])
    else if Space(s[|s| - 1]) then Trimmed(s[..|s| - 1])
    else s
  }

  function LastGeneration(r: Registry, id: string): nat {
    if id in r.generations then r.generations[id] else 0
  }

  function AcquireOutcome(r: Registry, sessionId: string, surfaceId: string): Acquisition {
    var id, surface := Trimmed(sessionId), Trimmed(surfaceId);
    if id == "" || surface == "" then Refused(EmptyIdentity)
    else if id in r.disposed then Refused(SessionDisposed)
    else if id in r.sessions then Lease(id, surface, r.sessions[id].generation)
    else Lease(id, surface, LastGeneration(r, id) + 1)
  }

  function Acquired(r: Registry, sessionId: string, surfaceId: string): Registry {
    var lease := AcquireOutcome(r, sessionId, surfaceId);
    if lease.Refused? then r
    else
      var id := lease.sessionId;
      var held := if id in r.sessions then r.sessions[id].surfaces else {};
      r.(sessions := r.sessions[id := Live(held + {lease.surfaceId}, lease.generation)],
         generations := if id in r.sessions then r.generations else r.generations[id := lease.generation])
  }

  function ReconnectOutcome(r: Registry, sessionId: string, surfaceId: string): Acquisition {
    var id, surface := Trimmed(sessionId), Trimmed(surfaceId);
    if id == "" || surface == "" then Refused(EmptyIdentity)
    else if id !in r.sessions || id in r.disposed then Refused(SessionDisposed)
    else Lease(id, surface, r.sessions[id].generation + 1)
  }

  function Reconnected(r: Registry, sessionId: string, surfaceId: string): Registry {
    var lease := ReconnectOutcome(r, sessionId, surfaceId);
    if lease.Refused? || lease.sessionId !in r.sessions then r
    else
      var id := lease.sessionId;
      r.(sessions := r.sessions[id := Live({lease.surfaceId}, lease.generation)],
         generations := r.generations[id := lease.generation],
         ends := r.ends[(id, r.sessions[id].generation) := Replaced])
  }

  function ReleaseOutcome(r: Registry, id: string, surface: string, expected: Option<nat>): ReleaseResult {
    if id !in r.sessions then NotReleased(UnknownSession)
    else if expected.Some? && expected.value != r.sessions[id].generation then NotReleased(GenerationMismatch)
    else if surface !in r.sessions[id].surfaces then NotReleased(DuplicateRelease)
    else Released
  }

  function AfterRelease(r: Registry, id: string, surface: string, expected: Option<nat>): Registry {
    if ReleaseOutcome(r, id, surface, expected) != Released || id !in r.sessions then r
    else
      var live := r.sessions[id];
      var left := live.surfaces - {surface};
      if left != {} then r.(sessions := r.sessions[id := live.(surfaces := left)])
      else
        r.(sessions := r.sessions - {id}, disposed := r.disposed + {id},
           calls := r.calls + [(id, live.generation)],
           ends := r.ends[(id, live.generation) := Disposed])
  }

  function AfterReset(r: Registry): Registry {
    var lost := map k: (string, nat) | k in LiveKeys(r) :: Dropped;
    r.(sessions := map[], disposed := {}, ends := r.ends + lost)
  }

  function LiveKeys(r: Registry): set<(string, nat)> {
    set id | id in r.sessions :: (id, r.sessions[id].generation)
  }

  function Step(r: Registry, op: Op): Registry {
    match op
    case Acquire(id, surface) => Acquired(r, id, surface)
    case Reconnect(id, surface) => Reconnected(r, id, surface)
    case ReleaseSurface(id, surface, expected) => AfterRelease(r, id, surface, expected)
    case Reset => AfterReset(r)
  }

  function Run(r: Registry, ops: seq<Op>): Registry
    decreases |ops|
  {
    if ops == [] then r else Run(Step(r, ops[0]), ops[1..])
  }

  // ---------- What every run keeps ----------

  ghost predicate IsLive(r: Registry, id: string, generation: nat) {
    id in r.sessions && r.sessions[id].generation == generation
  }

  /** The generation was given out at some time. */
  predicate Minted(r: Registry, id: string, generation: nat) {
    1 <= generation <= LastGeneration(r, id)
  }

  /** A generation that was given out is live or has ended, but not both; no other is either. */
  ghost predicate Accounted(r: Registry, id: string, generation: nat) {
    if Minted(r, id, generation) then IsLive(r, id, generation) <==> (id, generation) !in r.ends
    else !IsLive(r, id, generation) && (id, generation) !in r.ends
  }

  /**
    A live session has a surface and the newest generation of its id, and is not disposed.  Every
    generation given out is live or has ended, not both, and the callback ran once for each
    generation that ended by disposal and for no other.
   */
  ghost predicate Valid(r: Registry) {
    && (forall id :: id in r.sessions ==>
          r.sessions[id].surfaces != {} && r.sessions[id].generation == LastGeneration(r, id) && id !in r.disposed)
    && (forall id: string, g: nat :: Accounted(r, id, g))
    && (forall i, j :: 0 <= i < j < |r.calls| ==> r.calls[i] != r.calls[j])
    && (forall k :: k in r.calls <==> k in r.ends && r.ends[k] == Disposed)
  }

  const EMPTY: Registry := Registry(map[], map[], {}, [], map[])

  lemma EmptyValid()
    ensures Valid(EMPTY)
  {
  }

  lemma {:induction false} AcquireKeepsValid(r: Registry, sessionId: string, surfaceId: string)
    requires Valid(r)
    ensures Valid(Acquired(r, sessionId, surfaceId))
  {
    var lease := AcquireOutcome(r, sessionId, surfaceId);
    var t := Acquired(r, sessionId, surfaceId);
    forall id: string, g: nat ensures Accounted(t, id, g) {
      assert Accounted(r, id, g);
    }
  }

  lemma {:induction false} ReconnectKeepsValid(r: Registry, sessionId: string, surfaceId: string)
    requires Valid(r)
    ensures Valid(Reconnected(r, sessionId, surfaceId))
  {
    var lease := ReconnectOutcome(r, sessionId, surfaceId);
    var t := Reconnected(r, sessionId, surfaceId);
    forall id: string, g: nat ensures Accounted(t, id, g) {
      assert Accounted(r, id, g);
    }
    if lease.Lease? {
      assert Accounted(r, lease.sessionId, r.sessions[lease.sessionId].generation);
    }
  }

  lemma {:induction false} ReleaseKeepsValid(r: Registry, id: string, surface: string, expected: Option<nat>)
    requires Valid(r)
    ensures Valid(AfterRelease(r, id, surface, expected))
  {
    var t := AfterRelease(r, id, surface, expected);
    forall x: string, g: nat ensures Accounted(t, x, g) {
      assert Accounted(r, x, g);
    }
    if id in r.sessions {
      assert Accounted(r, id, r.sessions[id].generation);
      assert |t.calls| > |r.calls| ==> t.calls[..|r.calls|] == r.calls;
    }
  }

  lemma {:induction false} ResetKeepsValid(r: Registry)
    requires Valid(r)
    ensures Valid(AfterReset(r))
  {
    var t := AfterReset(r);
    forall id: string, g: nat ensures Accounted(t, id, g) {
      assert Accounted(r, id, g);
    }
    forall k | k in LiveKeys(r) ensures k !in r.ends {
      assert Accounted(r, k.0, k.1);
    }
  }

  lemma {:induction false} RunKeepsValid(r: Registry, ops: seq<Op>)
    requires Valid(r)
    ensures Valid(Run(r, ops))
    decreases |ops|
  {
    if ops != [] {
      StepKeepsValid(r, ops[0]);
      RunKeepsValid(Step(r, ops[0]), ops[1..]);
    }
  }

  lemma {:induction false} StepKeepsValid(r: Registry, op: Op)
    requires Valid(r)
    ensures Valid(Step(r, op))
  {
    match op
    case Acquire(id, surface) => AcquireKeepsValid(r, id, surface);
    case Reconnect(id, surface) => ReconnectKeepsValid(r, id, surface);
    case ReleaseSurface(id, surface, expected) => ReleaseKeepsValid(r, id, surface, expected);
    case Reset => ResetKeepsValid(r);
  }

  // ---------- Generations and fencing ----------

  /** A lease for a new record carries a generation above all earlier ones of its session. */
  lemma {:induction false} NewRecordIsNewer(r: Registry, sessionId: string, surfaceId: string, g: nat)
    requires Valid(r)
    ensures var a := AcquireOutcome(r, sessionId, surfaceId);
      && (a.Lease? ==> IsLive(Acquired(r, sessionId, surfaceId), a.sessionId, a.generation))
      && (a.Lease? && a.sessionId in r.sessions ==> IsLive(r, a.sessionId, a.generation))
      && (a.Lease? && a.sessionId !in r.sessions && Minted(r, a.sessionId, g) ==> g < a.generation)
    ensures var c := ReconnectOutcome(r, sessionId, surfaceId);
      && (c.Lease? ==> IsLive(Reconnected(r, sessionId, surfaceId), c.sessionId, c.generation))
      && (c.Lease? && Minted(r, c.sessionId, g) ==> g < c.generation)
  {
  }

  lemma {:induction false} EndedStaysEnded(r: Registry, op: Op, id: string, g: nat)
    requires Valid(r) && Minted(r, id, g) && !IsLive(r, id, g)
    ensures Minted(Step(r, op), id, g) && !IsLive(Step(r, op), id, g)
    ensures (id, g) in r.ends && (id, g) in Step(r, op).ends && Step(r, op).ends[(id, g)] == r.ends[(id, g)]
  {
    assert Accounted(r, id, g);
    match op
    case Acquire(_, _) =>
    case Reconnect(x, surface) =>
      var c := ReconnectOutcome(r, x, surface);
      assert c.Lease? ==> Accounted(r, c.sessionId, r.sessions[c.sessionId].generation);
    case ReleaseSurface(x, surface, expected) =>
      assert x in r.sessions ==> Accounted(r, x, r.sessions[x].generation);
    case Reset =>
  }

  /**
    Once a generation of a session has ended, by reconnect, reset or disposal, it has ended for
    good: after any further run a release with its lease changes nothing.
   */
  lemma {:induction false} EndedLeaseIsFenced(r: Registry, ops: seq<Op>, id: string, g: nat, surface: string)
    requires Valid(r) && Minted(r, id, g) && !IsLive(r, id, g)
    ensures var t := Run(r, ops);
      && Minted(t, id, g) && !IsLive(t, id, g)
      && ReleaseOutcome(t, id, surface, Some(g)) != Released
      && AfterRelease(t, id, surface, Some(g)) == t
    decreases |ops|
  {
    if ops != [] {
      StepKeepsValid(r, ops[0]);
      EndedStaysEnded(r, ops[0], id, g);
      EndedLeaseIsFenced(Step(r, ops[0]), ops[1..], id, g, surface);
    }
  }

  /** Reconnecting ends the generation before it, and resetting ends every live generation. */
  lemma {:induction false} ReconnectAndResetEnd(r: Registry, sessionId: string, surfaceId: string, id: string, g: nat)
    requires Valid(r) && IsLive(r, id, g)
    ensures Minted(AfterReset(r), id, g) && !IsLive(AfterReset(r), id, g) && AfterReset(r).ends[(id, g)] == Dropped
    ensures var c := ReconnectOutcome(r, sessionId, surfaceId);
      c.Lease? && c.sessionId == id ==>
        var t := Reconnected(r, sessionId, surfaceId);
        Minted(t, id, g) && !IsLive(t, id, g) && t.ends[(id, g)] == Replaced
  {
    assert Accounted(r, id, g) && (id, g) in LiveKeys(r);
  }

  /** A lease takes effect exactly while its generation is live and its surface is held. */
  lemma {:induction false} ReleaseTakesEffectIff(r: Registry, id: string, surface: string, g: nat)
    ensures AfterRelease(r, id, surface, Some(g)) != r
        <==> (IsLive(r, id, g) && surface in r.sessions[id].surfaces)
  {
    if IsLive(r, id, g) && surface in r.sessions[id].surfaces {
      var t := AfterRelease(r, id, surface, Some(g));
      assert id !in t.sessions || surface !in t.sessions[id].surfaces;
    }
  }

  /** The callback runs in a step exactly when the step releases the last surface of a session. */
  lemma {:induction false} DisposalIffLastSurface(r: Registry, op: Op)
    requires Valid(r)
    ensures Step(r, op).calls != r.calls <==>
      && op.ReleaseSurface? && op.sessionId in r.sessions
      && ReleaseOutcome(r, op.sessionId, op.surfaceId, op.expected) == Released
      && r.sessions[op.sessionId].surfaces == {op.surfaceId}
    ensures Step(r, op).calls != r.calls ==>
      && Step(r, op).calls == r.calls + [(op.sessionId, r.sessions[op.sessionId].generation)]
      && op.sessionId !in Step(r, op).sessions && op.sessionId in Step(r, op).disposed
  {
    if op.ReleaseSurface? && op.sessionId in r.sessions {
      var s := r.sessions[op.sessionId].surfaces;
      assert op.surfaceId in s ==> (s - {op.surfaceId} == {} <==> s == {op.surfaceId});
      assert |Step(r, op).calls| == |r.calls| ==> Step(r, op).calls == r.calls;
    }
  }

  /** Over a run from the empty registry the callback runs at most once per generation. */
  lemma {:induction false} DisposedOnce(ops: seq<Op>, id: string, g: nat)
    ensures var r := Run(EMPTY, ops);
      && multiset(r.calls)[(id, g)] <= 1
      && (multiset(r.calls)[(id, g)] == 1 <==> (id, g) in r.ends && r.ends[(id, g)] == Disposed)
  {
    EmptyValid();
    RunKeepsValid(EMPTY, ops);
    OccursOnce(Run(EMPTY, ops).calls, (id, g));
  }

  lemma {:induction false} OccursOnce<T>(s: seq<T>, x: T)
    requires forall i, j :: 0 <= i < j < |s| ==> s[i] != s[j]
    ensures multiset(s)[x] == if x in s then 1 else 0
  {
    if s != [] {
      var n := |s| - 1;
      OccursOnce(s[..n], x);
      assert s == s[..n] + [s[n]];
    }
  }

  /**
    A disposed session cannot be acquired or reconnected again until a reset, whatever happens.
   */
  lemma {:induction false} DisposedUntilReset(r: Registry, ops: seq<Op>, id: string)
    requires Valid(r) && id in r.disposed && Reset !in ops
    ensures id in Run(r, ops).disposed && id !in Run(r, ops).sessions
    decreases |ops|
  {
    if ops != [] {
      StepKeepsValid(r, ops[0]);
      DisposedUntilReset(Step(r, ops[0]), ops[1..], id);
    }
  }

  // ---------- Who holds a session ----------

  predicate InSession(r: Registry, id: string, surface: string) {
    id in r.sessions && surface in r.sessions[id].surfaces
  }

  /** The operation gives the surface a lease on the session. */
  predicate Joins(r: Registry, op: Op, id: string, surface: string) {
    match op
    case Acquire(x, y) => Trimmed(x) == id && Trimmed(y) == surface && AcquireOutcome(r, x, y).Lease?
    case Reconnect(x, y) => Trimmed(x) == id && Trimmed(y) == surface && ReconnectOutcome(r, x, y).Lease?
    case _ => false
  }

  /**
    The operation takes the session from the surface: its release under the present generation or
    under none, another surface's reconnection, or a reset.
   */
  predicate Leaves(r: Registry, op: Op, id: string, surface: string) {
    match op
    case Acquire(_, _) => false
    case Reconnect(x, y) => Trimmed(x) == id && Trimmed(y) != surface && ReconnectOutcome(r, x, y).Lease?
    case ReleaseSurface(x, y, expected) =>
      x == id && y == surface && (expected.None? || (id in r.sessions && expected.value == r.sessions[id].generation))
    case Reset => true
  }

  lemma {:induction false} AcquireMembers(r: Registry, x: string, y: string, id: string, surface: string)
    ensures var joined := AcquireOutcome(r, x, y).Lease? && Trimmed(x) == id && Trimmed(y) == surface;
      InSession(Acquired(r, x, y), id, surface) <==> joined || InSession(r, id, surface)
  {
  }

  lemma {:induction false} ReconnectMembers(r: Registry, x: string, y: string, id: string, surface: string)
    ensures var granted := ReconnectOutcome(r, x, y).Lease? && Trimmed(x) == id;
      InSession(Reconnected(r, x, y), id, surface) <==> if granted then Trimmed(y) == surface else InSession(r, id, surface)
  {
  }

  lemma {:induction false} ReleaseMembers(r: Registry, x: string, y: string, expected: Option<nat>, id: string, surface: string)
    ensures InSession(AfterRelease(r, x, y, expected), id, surface) <==>
      InSession(r, id, surface) && !Leaves(r, ReleaseSurface(x, y, expected), id, surface)
  {
    if x == id && id in r.sessions {
      var held := r.sessions[id].surfaces;
      assert surface in held - {y} <==> surface in held && surface != y;
      assert surface in held - {y} ==> held - {y} != {};
    }
  }

  /** In one step a surface is added, another taken away, and nobody else touched. */
  lemma {:induction false} StepMembers(r: Registry, op: Op, id: string, surface: string)
    ensures InSession(Step(r, op), id, surface) <==>
      if Joins(r, op, id, surface) then true else !Leaves(r, op, id, surface) && InSession(r, id, surface)
  {
    match op
    case Acquire(x, y) => AcquireMembers(r, x, y, id, surface);
    case Reconnect(x, y) => ReconnectMembers(r, x, y, id, surface);
    case ReleaseSurface(x, y, expected) => ReleaseMembers(r, x, y, expected, id, surface);
    case Reset =>
  }

  /** The surface joined the session in the run, or held it before, and has not left since. */
  predicate HeldAfter(r: Registry, ops: seq<Op>, id: string, surface: string, before: bool)
    decreases |ops|
  {
    if ops == [] then before
    else
      var now := if Joins(r, ops[0], id, surface) then true else !Leaves(r, ops[0], id, surface) && before;
      HeldAfter(Step(r, ops[0]), ops[1..], id, surface, now)
  }

  /** Over every run a surface holds a session exactly when it joined it and has not left since. */
  lemma {:induction false} HeldIffJoinedSince(r: Registry, ops: seq<Op>, id: string, surface: string)
    ensures InSession(Run(r, ops), id, surface) <==> HeldAfter(r, ops, id, surface, InSession(r, id, surface))
    decreases |ops|
  {
    if ops != [] {
      StepMembers(r, ops[0], id, surface);
      HeldIffJoinedSince(Step(r, ops[0]), ops[1..], id, surface);
    }
  }

  predicate HoldsNow(ops: seq<Op>, id: string, surface: string) {
    HeldAfter(EMPTY, ops, id, surface, false)
  }

  lemma {:induction false} RunSnoc(r: Registry, ops: seq<Op>, op: Op)
    ensures Run(r, ops + [op]) == Step(Run(r, ops), op)
    decreases |ops|
  {
    if ops == [] {
      assert [] + [op] == [op] && [op][1..] == [];
    } else {
      assert (ops + [op])[1..] == ops[1..] + [op];
      RunSnoc(Step(r, ops[0]), ops[1..], op);
    }
  }

  /**
    From the empty registry on, the callback runs exactly when a release makes the last of all the
    surfaces that joined the session leave it, and for the newest generation of the session.
   */
  lemma {:induction false} CallbackIffAllLeft(ops: seq<Op>, op: Op)
    ensures var r, t := Run(EMPTY, ops), Run(EMPTY, ops + [op]);
      var allLeft := op.ReleaseSurface? && (exists s :: HoldsNow(ops, op.sessionId, s))
                     && (forall s :: !HoldsNow(ops + [op], op.sessionId, s));
      && (t.calls != r.calls <==> allLeft)
      && (allLeft ==> t.calls == r.calls + [(op.sessionId, LastGeneration(r, op.sessionId))])
  {
    var r := Run(EMPTY, ops);
    RunSnoc(EMPTY, ops, op);
    EmptyValid();
    RunKeepsValid(EMPTY, ops);
    if op.ReleaseSurface? {
      var id := op.sessionId;
      forall s ensures InSession(r, id, s) <==> HoldsNow(ops, id, s) {
        HeldIffJoinedSince(EMPTY, ops, id, s);
      }
      forall s ensures InSession(Step(r, op), id, s) <==> HoldsNow(ops + [op], id, s) {
        HeldIffJoinedSince(EMPTY, ops + [op], id, s);
      }
      DisposalIffEmptied(r, op);
    } else {
      DisposalIffLastSurface(r, op);
    }
  }

  lemma {:induction false} DisposalIffEmptied(r: Registry, op: Op)
    requires Valid(r) && op.ReleaseSurface?
    ensures var emptied := (exists s :: InSession(r, op.sessionId, s)) && (forall s :: !InSession(Step(r, op), op.sessionId, s));
      && (Step(r, op).calls != r.calls <==> emptied)
      && (emptied ==> Step(r, op).calls == r.calls + [(op.sessionId, LastGeneration(r, op.sessionId))])
  {
    var id := op.sessionId;
    DisposalIffLastSurface(r, op);
    if id in r.sessions {
      var s :| s in r.sessions[id].surfaces;
      assert InSession(r, id, s);
      if Step(r, op).calls == r.calls {
        assert id in Step(r, op).sessions && Step(r, op).sessions[id].surfaces != {} by {
          StepKeepsValid(r, op);
        }
        var still :| still in Step(r, op).sessions[id].surfaces;
        assert InSession(Step(r, op), id, still);
      }
    }
  }

  /** The session an operation is about. */
  predicate Addresses(op: Op, id: string) {
    match op
    case Acquire(x, _) => Trimmed(x) == id
    case Reconnect(x, _) => Trimmed(x) == id
    case ReleaseSurface(x, _, _) => x == id
    case Reset => true
  }

  /** Operations on one session leave all others alone. */
  lemma {:induction false} OthersAlone(r: Registry, op: Op, id: string)
    requires !Addresses(op, id)
    ensures var t := Step(r, op);
      && (id in t.sessions <==> id in r.sessions) && (id in r.sessions ==> t.sessions[id] == r.sessions[id])
      && LastGeneration(t, id) == LastGeneration(r, id) && (id in t.disposed <==> id in r.disposed)
  {
  }

  // ---------- What is granted and what refused ----------

  /** An acquisition is refused exactly for blank names and disposed sessions, a reconnection also for unknown ones. */
  lemma {:induction false} GrantedIff(r: Registry, sessionId: string, surfaceId: string)
    ensures var open := Trimmed(sessionId) != "" && Trimmed(surfaceId) != "" && Trimmed(sessionId) !in r.disposed;
      && (AcquireOutcome(r, sessionId, surfaceId).Lease? <==> open)
      && (ReconnectOutcome(r, sessionId, surfaceId).Lease? <==> open && Trimmed(sessionId) in r.sessions)
    ensures var a := AcquireOutcome(r, sessionId, surfaceId);
      a.Lease? ==> a.sessionId == Trimmed(sessionId) && a.surfaceId == Trimmed(surfaceId)
    ensures var c := ReconnectOutcome(r, sessionId, surfaceId);
      c.Lease? ==> c.sessionId == Trimmed(sessionId) && c.surfaceId == Trimmed(surfaceId)
  {
  }

  /** Why a release is refused: no live session, another generation, or a surface that does not hold it. */
  lemma {:induction false} ReleaseRefusedIff(r: Registry, id: string, surface: string, expected: Option<nat>)
    ensures var o := ReleaseOutcome(r, id, surface, expected);
      var fits := id in r.sessions && (expected.None? || IsLive(r, id, expected.value));
      && (o == Released <==> fits && InSession(r, id, surface))
      && (o == NotReleased(UnknownSession) <==> id !in r.sessions)
      && (o == NotReleased(GenerationMismatch) <==> id in r.sessions && !fits)
      && (o == NotReleased(DuplicateRelease) <==> fits && !InSession(r, id, surface))
  {
  }

  /** Trimming takes off the blanks around a text, and nothing else. */
  lemma {:induction false} TrimmedMeaning(s: string) returns (a: string, b: string)
    ensures s == a + Trimmed(s) + b
    ensures (forall i :: 0 <= i < |a| ==> Space(a[i])) && (forall i :: 0 <= i < |b| ==> Space(b[i]))
    ensures Trimmed(s) != "" ==> !Space(Trimmed(s)[0]) && !Space(Trimmed(s)[|Trimmed(s)| - 1])
    decreases |s|
  {
    if s == "" {
      a, b := "", "";
    } else if Space(s[0]) {
      a, b := TrimmedMeaning(s[1..]);
      assert s == [s[0]] + s[1..];
      a := [s[0]] + a;
    } else if Space(s[|s| - 1]) {
      var n := |s| - 1;
      a, b := TrimmedMeaning(s[..n]);
      assert s == s[..n] + [s[n]];
      b := b + [s[n]];
    } else {
      a, b := "", "";
    }
  }

  // ---------- The registry and its leases ----------

  class SessionRegistry {
    var sessions: map<string, Live>
    var generations: map<string, nat>
    var disposed: set<string>
    var calls: seq<(string, nat)>
    ghost var ends: map<(string, nat), End>

    ghost function Now(): Registry
      reads this
    {
      Registry(sessions, generations, disposed, calls, ends)
    }

    constructor ()
      ensures Now() == EMPTY && Valid(Now())
    {
      sessions, generations, disposed, calls, ends := map[], map[], {}, [], map[];
      new;
      EmptyValid();
    }

    method Acquire(sessionId: string, surfaceId: string) returns (a: Acquisition)
      modifies this
      ensures a == AcquireOutcome(old(Now()), sessionId, surfaceId)
      ensures Now() == Acquired(old(Now()), sessionId, surfaceId)
    {
      var id, surface := Trimmed(sessionId), Trimmed(surfaceId);
      if id == "" || surface == "" {
        return Refused(EmptyIdentity);
      }
      if id in disposed {
        return Refused(SessionDisposed);
      }
      if id !in sessions {
        var generation := (if id in generations then generations[id] else 0) + 1;
        generations := generations[id := generation];
        sessions := sessions[id := Live({}, generation)];
      }
      var live := sessions[id];
      sessions := sessions[id := live.(surfaces := live.surfaces + {surface})];
      a := Lease(id, surface, live.generation);
    }

    method Reconnect(sessionId: string, surfaceId: string) returns (a: Acquisition)
      modifies this
      ensures a == ReconnectOutcome(old(Now()), sessionId, surfaceId)
      ensures Now() == Reconnected(old(Now()), sessionId, surfaceId)
    {
      var id, surface := Trimmed(sessionId), Trimmed(surfaceId);
      if id == "" || surface == "" {
        return Refused(EmptyIdentity);
      }
      if id !in sessions || id in disposed {
        return Refused(SessionDisposed);
      }
      ends := ends[(id, sessions[id].generation) := Replaced];
      var generation := sessions[id].generation + 1;
      generations := generations[id := generation];
      sessions := sessions[id := Live({surface}, generation)];
      a := Lease(id, surface, generation);
    }

    method Release(id: string, surface: string, expected: Option<nat>) returns (outcome: ReleaseResult)
      modifies this
      ensures outcome == ReleaseOutcome(old(Now()), id, surface, expected)
      ensures Now() == AfterRelease(old(Now()), id, surface, expected)
    {
      if id !in sessions {
        return NotReleased(UnknownSession);
      }
      var live := sessions[id];
      if expected.Some? && expected.value != live.generation {
        return NotReleased(GenerationMismatch);
      }
      if surface !in live.surfaces {
        return NotReleased(DuplicateRelease);
      }
      var left := live.surfaces - {surface};
      sessions := sessions[id := live.(surfaces := left)];
      if left == {} {
        sessions := sessions - {id};
        disposed := disposed + {id};
        calls := calls + [(id, live.generation)];
        ends := ends[(id, live.generation) := Disposed];
        assert sessions == old(sessions) - {id};
      }
      outcome := Released;
    }

    method ResetAll()
      modifies this
      ensures Now() == AfterReset(old(Now()))
    {
      ends := AfterReset(Now()).ends;
      sessions, disposed := map[], {};
    }
  }

  /** The handle given out with a lease; it passes on at most one release. */
  class LeaseHandle {
    const registry: SessionRegistry
    const lease: Acquisition
    var released: bool

    constructor (registry: SessionRegistry, lease: Acquisition)
      requires lease.Lease?
      ensures this.registry == registry && this.lease == lease && !released
    {
      this.registry, this.lease, released := registry, lease, false;
    }

    method Release() returns (outcome: ReleaseResult)
      requires lease.Lease?
      modifies this, registry
      ensures released
      ensures old(released) ==> outcome == NotReleased(DuplicateRelease) && registry.Now() == old(registry.Now())
      ensures !old(released) ==>
        && outcome == ReleaseOutcome(old(registry.Now()), lease.sessionId, lease.surfaceId, Some(lease.generation))
        && registry.Now() == AfterRelease(old(registry.Now()), lease.sessionId, lease.surfaceId, Some(lease.generation))
    {
      if released {
        return NotReleased(DuplicateRelease);
      }
      released := true;
      outcome := registry.Release(lease.sessionId, lease.surfaceId, Some(lease.generation));
    }
  }
}
