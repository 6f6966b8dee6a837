/**
  The single-flight creation of sessions in src/hooks/useOptimisticNewSession.ts: callers that
  arrive while a backend call is under way join it, and all of them get its outcome.
 */
module NewSession {
  import opened Common

  /** What a caller asks for. */
  datatype Args = Args(cwd: string, modelId: Option<string>)
  datatype Outcome = Resolved(realId: string) | Rejected(error: string)
  /** The record of the call under way: the provisional id of the latest caller, and the waiters. */
  datatype Pending = Pending(nonce: string, pendingId: string, waiters: seq<nat>)

  /**
    Callers and backend calls are numbered as they come.  `joined`, `outcomes` and `settled` are
    history: which call a caller joined, how calls ended, and which promises were settled how.
    So are `requested`, what each caller asked for, `created`, what each call was made with, and
    `starter`, the caller that made it.
   */
  datatype State = State(
    pending: Option<Pending>, inFlight: set<nat>, callers: nat, calls: nat,
    joined: map<nat, nat>, outcomes: map<nat, Outcome>, settled: seq<(nat, Outcome)>,
    requested: map<nat, Args>, created: map<nat, Args>, starter: map<nat, nat>)

  /** `throws`: the backend factory fails before it returns a promise. */
  datatype Op = Ensure(pendingId: string, args: Args, throws: bool) | Settle(call: nat, outcome: Outcome)

  const IDLE: State := State(None, {}, 0, 0, map[], map[], [], map[], map[], map[])

  function SettledAll(waiters: seq<nat>, outcome: Outcome): (r: seq<(nat, Outcome)>)
    ensures |r| == |waiters|
  {
    seq(|waiters|, i requires 0 <= i < |waiters| => (waiters[i], outcome))
  }

  function Ensured(s: State, pendingId: string, args: Args, throws: bool): State {
    var caller := s.callers;
    if s.pending.Some? then
      s.(requested := s.requested[caller := args],
         pending := Some(s.pending.value.(pendingId := pendingId, waiters := s.pending.value.waiters + [caller])),
         callers := caller + 1, joined := s.joined[caller := if s.calls > 0 then s.calls - 1 else 0])
    else
      var t := s.(requested := s.requested[caller := args],
                  pending := Some(Pending(pendingId, pendingId, [caller])), callers := caller + 1,
                  joined := s.joined[caller := s.calls]);
      if throws then t else t.(inFlight := s.inFlight + {s.calls}, calls := s.calls + 1,
                               created := s.created[s.calls := args], starter := s.starter[s.calls := caller])
  }

  function Settled(s: State, call: nat, outcome: Outcome): State {
    if call !in s.inFlight then s
    else
      s.(pending := None, inFlight := s.inFlight - {call}, outcomes := s.outcomes[call := outcome],
         settled := s.settled + (if s.pending.Some? then SettledAll(s.pending.value.waiters, outcome) else []))
  }

  function Step(s: State, op: Op): State {
    match op
    case Ensure(pendingId, args, throws) => Ensured(s, pendingId, args, throws)
    case Settle(call, outcome) => Settled(s, call, outcome)
  }

  function Run(s: State, ops: seq<Op>): State
    decreases |ops|
  {
    if ops == [] then s else Run(Step(s, ops[0]), ops[1..])
  }

  // ---------- What every run keeps ----------

  function Waiters(s: State): seq<nat> {
    if s.pending.Some? then s.pending.value.waiters else []
  }

  predicate IsSettled(s: State, caller: nat) {
    exists k :: 0 <= k < |s.settled| && s.settled[k].0 == caller
  }

  predicate IsWaiting(s: State, caller: nat) {
    caller in Waiters(s)
  }

  /** The call under way is the latest, there is one exactly when a record is, and it has a waiter. */
  ghost predicate OneInFlight(s: State) {
    s.inFlight == (if s.pending.Some? then {s.calls - 1} else {}) && (s.pending.Some? ==> s.calls > 0 && Waiters(s) != [])
  }

  /** A caller waits for the call under way, or was settled with the outcome of the call it joined. */
  ghost predicate CallersServed(s: State) {
    && (forall c: nat :: c < s.callers <==> IsSettled(s, c) || IsWaiting(s, c))
    && (forall c: nat :: IsSettled(s, c) ==> !IsWaiting(s, c))
    && (forall i, j :: 0 <= i < j < |s.settled| ==> s.settled[i].0 != s.settled[j].0)
    && (forall i, j :: 0 <= i < j < |Waiters(s)| ==> Waiters(s)[i] != Waiters(s)[j])
  }

  ghost predicate OutcomesMatch(s: State) {
    && (forall call :: call in s.outcomes ==> call < s.calls && call !in s.inFlight)
    && (forall i :: 0 <= i < |Waiters(s)| ==> Waiters(s)[i] in s.joined && s.joined[Waiters(s)[i]] in s.inFlight)
    && (forall k :: 0 <= k < |s.settled| ==> GotOwnOutcome(s, s.settled[k]))
    && (forall c :: c in s.joined ==> c < s.callers)
  }

  predicate GotOwnOutcome(s: State, settlement: (nat, Outcome)) {
    && settlement.0 in s.joined && s.joined[settlement.0] in s.outcomes
    && s.outcomes[s.joined[settlement.0]] == settlement.1
  }

  ghost predicate Valid(s: State) {
    OneInFlight(s) && CallersServed(s) && OutcomesMatch(s)
  }

  /** The factory fails to return a promise while no call is under way. */
  predicate Throws(s: State, op: Op) {
    op.Ensure? && op.throws && s.pending.None?
  }

  predicate NeverThrows(s: State, ops: seq<Op>)
    decreases |ops|
  {
    ops == [] || (!Throws(s, ops[0]) && NeverThrows(Step(s, ops[0]), ops[1..]))
  }

  lemma {:induction false} EnsureServes(s: State, pendingId: string, args: Args)
    requires Valid(s)
    ensures CallersServed(Ensured(s, pendingId, args, false))
  {
    var t := Ensured(s, pendingId, args, false);
    assert t.settled == s.settled;
    assert Waiters(t) == Waiters(s) + [s.callers];
    forall c: nat ensures IsSettled(t, c) == IsSettled(s, c) && (IsWaiting(t, c) <==> IsWaiting(s, c) || c == s.callers) {
    }
    assert !IsSettled(s, s.callers) && !IsWaiting(s, s.callers);
    forall i | 0 <= i < |Waiters(s)| ensures Waiters(s)[i] != s.callers {
      assert IsWaiting(s, Waiters(s)[i]);
    }
  }

  lemma {:induction false} EnsureJoins(s: State, pendingId: string, args: Args)
    requires Valid(s)
    ensures var t := Ensured(s, pendingId, args, false);
      && t.settled == s.settled && t.outcomes == s.outcomes && Waiters(t) == Waiters(s) + [s.callers]
      && s.callers in t.joined && t.joined[s.callers] in t.inFlight && t.joined == s.joined[s.callers := t.joined[s.callers]]
      && s.inFlight <= t.inFlight && s.calls <= t.calls && t.callers == s.callers + 1
      && forall call :: call in t.inFlight && call !in s.inFlight ==> call >= s.calls
  {
  }

  lemma {:induction false} EnsureMatches(s: State, pendingId: string, args: Args)
    requires Valid(s)
    ensures OutcomesMatch(Ensured(s, pendingId, args, false))
  {
    var t := Ensured(s, pendingId, args, false);
    var w := Waiters(s);
    EnsureJoins(s, pendingId, args);
    forall i | 0 <= i < |Waiters(t)| ensures Waiters(t)[i] in t.joined && t.joined[Waiters(t)[i]] in t.inFlight {
      if i < |w| {
        assert Waiters(t)[i] == w[i] && w[i] in s.joined && w[i] < s.callers;
      }
    }
    forall k | 0 <= k < |t.settled| ensures GotOwnOutcome(t, t.settled[k]) {
      assert GotOwnOutcome(s, s.settled[k]) && s.settled[k].0 < s.callers;
    }
  }

  lemma {:induction false} EnsureKeepsValid(s: State, pendingId: string, args: Args)
    requires Valid(s)
    ensures Valid(Ensured(s, pendingId, args, false))
  {
    EnsureServes(s, pendingId, args);
    EnsureMatches(s, pendingId, args);
    assert Waiters(Ensured(s, pendingId, args, false)) == Waiters(s) + [s.callers];
  }

  lemma {:induction false} SettleServes(s: State, call: nat, outcome: Outcome)
    requires Valid(s) && call in s.inFlight
    ensures CallersServed(Settled(s, call, outcome))
  {
    var t, w, n := Settled(s, call, outcome), Waiters(s), |s.settled|;
    assert t.settled == s.settled + SettledAll(w, outcome) && Waiters(t) == [];
    assert forall k :: 0 <= k < n ==> t.settled[k] == s.settled[k];
    assert forall k :: n <= k < |t.settled| ==> t.settled[k] == (w[k - n], outcome);
    forall c: nat ensures IsSettled(t, c) <==> IsSettled(s, c) || IsWaiting(s, c) {
      if IsSettled(s, c) {
        var k :| 0 <= k < n && s.settled[k].0 == c;
        assert t.settled[k].0 == c;
      } else if IsWaiting(s, c) {
        var i :| 0 <= i < |w| && w[i] == c;
        assert t.settled[n + i].0 == c;
      }
    }
    forall i, j | 0 <= i < j < |t.settled| ensures t.settled[i].0 != t.settled[j].0 {
      assert i < n ==> IsSettled(s, s.settled[i].0);
      assert j >= n ==> IsWaiting(s, w[j - n]);
    }
  }

  lemma {:induction false} SettleMatches(s: State, call: nat, outcome: Outcome)
    requires Valid(s) && call in s.inFlight
    ensures OutcomesMatch(Settled(s, call, outcome))
  {
    var t, w, n := Settled(s, call, outcome), Waiters(s), |s.settled|;
    forall k | 0 <= k < |t.settled| ensures GotOwnOutcome(t, t.settled[k]) {
      if k < n {
        assert t.settled[k] == s.settled[k] && GotOwnOutcome(s, s.settled[k]);
      } else {
        assert t.settled[k] == (w[k - n], outcome);
      }
    }
  }

  lemma {:induction false} SettleKeepsValid(s: State, call: nat, outcome: Outcome)
    requires Valid(s)
    ensures Valid(Settled(s, call, outcome))
  {
    if call in s.inFlight {
      SettleServes(s, call, outcome);
      SettleMatches(s, call, outcome);
    }
  }

  lemma {:induction false} StepKeepsValid(s: State, op: Op)
    requires Valid(s) && !Throws(s, op)
    ensures Valid(Step(s, op))
  {
    match op
    case Ensure(id, args, throws) =>
      EnsureKeepsValid(s, id, args);
      assert Ensured(s, id, args, throws) == Ensured(s, id, args, false);
    case Settle(call, outcome) => SettleKeepsValid(s, call, outcome);
  }

  /**
    Over all interleavings of calls and settlements the bookkeeping stays right exactly when the
    factory never throws while no call is under way; once it has, nothing sets it right again.
   */
  lemma {:induction false} RunKeepsValid(s: State, ops: seq<Op>)
    requires Valid(s)
    ensures Valid(Run(s, ops)) <==> NeverThrows(s, ops)
    decreases |ops|
  {
    if ops != [] {
      if Throws(s, ops[0]) {
        ThrowWedges(s, ops[0].pendingId, ops[0].args, ops[1..]);
      } else {
        StepKeepsValid(s, ops[0]);
        RunKeepsValid(Step(s, ops[0]), ops[1..]);
      }
    }
  }

  lemma IdleValid()
    ensures Valid(IDLE)
  {
  }

  /**
    At most one call is under way at any time; no promise is settled twice; and every promise that
    is settled has the outcome of the call its caller joined.
   */
  lemma {:induction false} SingleFlight(ops: seq<Op>)
    requires NeverThrows(IDLE, ops)
    ensures var t := Run(IDLE, ops);
      && |t.inFlight| <= 1 && (t.inFlight == {} <==> t.pending.None?)
      && (forall i, j :: 0 <= i < j < |t.settled| ==> t.settled[i].0 != t.settled[j].0)
      && (forall k :: 0 <= k < |t.settled| ==> GotOwnOutcome(t, t.settled[k]))
  {
    IdleValid();
    RunKeepsValid(IDLE, ops);
  }

  /** When the call under way ends, everyone who has called so far is settled and no waiter is left. */
  lemma {:induction false} EveryoneIsSettled(s: State, call: nat, outcome: Outcome, caller: nat)
    requires Valid(s) && call in s.inFlight && caller < s.callers
    ensures var t := Settled(s, call, outcome);
      t.pending.None? && t.inFlight == {} && IsSettled(t, caller)
  {
    SettleKeepsValid(s, call, outcome);
    assert !IsWaiting(Settled(s, call, outcome), caller);
  }

  /** Callers of the same call get the same outcome. */
  lemma {:induction false} SharedOutcome(s: State, i: nat, j: nat)
    requires Valid(s) && i < |s.settled| && j < |s.settled|
    ensures s.settled[i].0 in s.joined && s.settled[j].0 in s.joined
    ensures s.joined[s.settled[i].0] == s.joined[s.settled[j].0] ==> s.settled[i].1 == s.settled[j].1
  {
  }

  // ---------- The record ----------

  /** A caller that joins leaves its provisional id in the record, whose first one stays as its mark. */
  lemma {:induction false} RecordOfCallers(s: State, pendingId: string, args: Args)
    ensures var t := Ensured(s, pendingId, args, false);
      && t.pending.Some? && t.pending.value.pendingId == pendingId
      && t.pending.value.nonce == (if s.pending.Some? then s.pending.value.nonce else pendingId)
      && Waiters(t) == Waiters(s) + [s.callers]
      && (s.pending.Some? ==> t.calls == s.calls) && (s.pending.None? ==> t.calls == s.calls + 1)
  {
  }

  // ---------- Whose arguments ----------

  /** Every call was made with the arguments of the first caller that joined it. */
  ghost predicate ArgsKept(s: State) {
    && (forall k :: 0 <= k < s.calls ==> MadeByStarter(s, k))
    && (forall c :: c in s.joined ==> JoinedAfterStarter(s, c))
  }

  predicate MadeByStarter(s: State, k: nat) {
    && k in s.created && k in s.starter && s.starter[k] in s.requested && s.starter[k] in s.joined
    && s.starter[k] < s.callers
    && s.joined[s.starter[k]] == k && s.created[k] == s.requested[s.starter[k]]
  }

  predicate JoinedAfterStarter(s: State, c: nat)
    requires c in s.joined
  {
    var k := s.joined[c];
    c in s.requested && k < s.calls && k in s.starter && s.starter[k] <= c
  }

  /** One more caller, of the call `k` it joins; earlier callers and calls are as they were. */
  ghost predicate OneMoreCaller(s: State, t: State, args: Args, k: nat) {
    && t.callers == s.callers + 1 && t.requested == s.requested[s.callers := args] && t.joined == s.joined[s.callers := k]
    && forall c :: c in s.joined ==> c < s.callers
  }

  lemma {:induction false} JoinKeepsArgs(s: State, t: State, args: Args, k: nat)
    requires ArgsKept(s) && OneMoreCaller(s, t, args, k) && k < s.calls
    requires t.calls == s.calls && t.created == s.created && t.starter == s.starter
    ensures ArgsKept(t)
  {
    forall j | 0 <= j < t.calls ensures MadeByStarter(t, j) {
      assert MadeByStarter(s, j);
    }
    assert MadeByStarter(s, k);
    forall c | c in t.joined ensures JoinedAfterStarter(t, c) {
      assert c != s.callers ==> JoinedAfterStarter(s, c);
    }
  }

  lemma {:induction false} NewCallKeepsArgs(s: State, t: State, args: Args)
    requires ArgsKept(s) && OneMoreCaller(s, t, args, s.calls)
    requires t.calls == s.calls + 1 && t.created == s.created[s.calls := args] && t.starter == s.starter[s.calls := s.callers]
    ensures ArgsKept(t)
  {
    forall j | 0 <= j < t.calls ensures MadeByStarter(t, j) {
      assert j < s.calls ==> MadeByStarter(s, j);
    }
    forall c | c in t.joined ensures JoinedAfterStarter(t, c) {
      assert c != s.callers ==> JoinedAfterStarter(s, c);
    }
  }

  lemma {:induction false} EnsureKeepsArgs(s: State, pendingId: string, args: Args, throws: bool)
    requires OneInFlight(s) && ArgsKept(s) && (forall c :: c in s.joined ==> c < s.callers)
    requires throws ==> s.pending.Some?
    ensures ArgsKept(Ensured(s, pendingId, args, throws))
  {
    if s.pending.Some? {
      JoinKeepsArgs(s, Ensured(s, pendingId, args, throws), args, s.calls - 1);
    } else {
      NewCallKeepsArgs(s, Ensured(s, pendingId, args, throws), args);
    }
  }

  lemma {:induction false} SettleKeepsArgs(s: State, call: nat, outcome: Outcome)
    requires ArgsKept(s)
    ensures ArgsKept(Settled(s, call, outcome))
  {
    var t := Settled(s, call, outcome);
    forall k | 0 <= k < t.calls ensures MadeByStarter(t, k) {
      assert MadeByStarter(s, k);
    }
    forall c | c in t.joined ensures JoinedAfterStarter(t, c) {
      assert JoinedAfterStarter(s, c);
    }
  }

  lemma {:induction false} StepKeepsArgs(s: State, op: Op)
    requires Valid(s) && ArgsKept(s) && !Throws(s, op)
    ensures ArgsKept(Step(s, op))
  {
    match op
    case Ensure(id, args, throws) => EnsureKeepsArgs(s, id, args, throws);
    case Settle(call, outcome) => SettleKeepsArgs(s, call, outcome);
  }

  lemma {:induction false} RunKeepsArgs(s: State, ops: seq<Op>)
    requires Valid(s) && ArgsKept(s) && NeverThrows(s, ops)
    ensures ArgsKept(Run(s, ops))
    decreases |ops|
  {
    if ops != [] {
      StepKeepsArgs(s, ops[0]);
      StepKeepsValid(s, ops[0]);
      RunKeepsArgs(Step(s, ops[0]), ops[1..]);
    }
  }

  /**
    A caller joins a call made by the first caller that joined it, whatever its own directory and
    model: it gets a session made for its own arguments exactly when that caller asked for the same.
   */
  lemma {:induction false} OwnArgumentsIff(ops: seq<Op>, c: nat)
    requires NeverThrows(IDLE, ops) && c in Run(IDLE, ops).joined
    ensures var t := Run(IDLE, ops);
      var k := t.joined[c];
      && k in t.created && k in t.starter && c in t.requested && t.starter[k] in t.requested && t.starter[k] in t.joined
      && t.joined[t.starter[k]] == k && (forall d :: d in t.joined && t.joined[d] == k ==> t.starter[k] <= d)
      && (t.created[k] == t.requested[c] <==> t.requested[t.starter[k]] == t.requested[c])
  {
    IdleValid();
    RunKeepsArgs(IDLE, ops);
    var t := Run(IDLE, ops);
    assert JoinedAfterStarter(t, c) && MadeByStarter(t, t.joined[c]);
    forall d | d in t.joined && t.joined[d] == t.joined[c] ensures t.starter[t.joined[c]] <= d {
      assert JoinedAfterStarter(t, d);
    }
  }

  /**
    A factory that throws instead of returning a promise wedges the hook: the record stays with no
    call under way, later callers join it, and nobody is ever settled again.
   */
  lemma {:induction false} ThrowWedges(s: State, pendingId: string, args: Args, ops: seq<Op>)
    requires Valid(s) && s.pending.None?
    ensures var t := Run(Ensured(s, pendingId, args, true), ops);
      t.pending.Some? && t.inFlight == {} && t.settled == s.settled
  {
    StaysWedged(Ensured(s, pendingId, args, true), ops);
  }

  lemma {:induction false} StaysWedged(s: State, ops: seq<Op>)
    requires s.pending.Some? && s.inFlight == {}
    ensures var t := Run(s, ops); t.pending.Some? && t.inFlight == {} && t.settled == s.settled
    decreases |ops|
  {
    if ops != [] {
      StaysWedged(Step(s, ops[0]), ops[1..]);
    }
  }

  // ---------- The hook ----------

  class NewSessionHook {
    var pending: Option<Pending>
    ghost var inFlight: set<nat>
    ghost var callers: nat
    ghost var calls: nat
    ghost var joined: map<nat, nat>
    ghost var outcomes: map<nat, Outcome>
    /** The settlements made, in order. */
    var settled: seq<(nat, Outcome)>
    ghost var requested: map<nat, Args>
    ghost var created: map<nat, Args>
    ghost var starter: map<nat, nat>

    ghost function Now(): State
      reads this
    {
      State(pending, inFlight, callers, calls, joined, outcomes, settled, requested, created, starter)
    }

    constructor ()
      ensures Now() == IDLE && Valid(Now())
    {
      pending, inFlight, callers, calls, joined, outcomes, settled := None, {}, 0, 0, map[], map[], [];
      requested, created, starter := map[], map[], map[];
    }

    /** A call of the hook; `caller` is its number, `started` tells whether it started a backend call. */
    method EnsureNewSession(pendingId: string, args: Args, caller: nat) returns (started: bool)
      requires caller == callers
      modifies this
      ensures Now() == Ensured(old(Now()), pendingId, args, false)
      ensures started <==> old(pending).None?
    {
      callers := callers + 1;
      requested := requested[caller := args];
      if pending.Some? {
        var existing := pending.value;
        joined := joined[caller := if calls > 0 then calls - 1 else 0];
        pending := Some(existing.(waiters := existing.waiters + [caller], pendingId := pendingId));
        return false;
      }
      pending := Some(Pending(pendingId, pendingId, [caller]));
      joined := joined[caller := calls];
      inFlight := inFlight + {calls};
      created, starter := created[calls := args], starter[calls := caller];
      calls := calls + 1;
      started := true;
    }

    /** The backend call under way ends: the record is cleared and its waiters are settled in turn. */
    method OnSettled(ghost call: nat, outcome: Outcome)
      requires call in inFlight
      modifies this
      ensures Now() == Settled(old(Now()), call, outcome)
    {
      var current := pending;
      pending := None;
      inFlight := inFlight - {call};
      outcomes := outcomes[call := outcome];
      if current.Some? {
        var waiters := current.value.waiters;
        for k := 0 to |waiters|
          invariant pending == None && inFlight == old(inFlight) - {call} && outcomes == old(outcomes)[call := outcome]
          invariant callers == old(callers) && calls == old(calls) && joined == old(joined)
          invariant requested == old(requested) && created == old(created) && starter == old(starter)
          invariant settled == old(settled) + SettledAll(waiters[..k], outcome)
        {
          settled := settled + [(waiters[k], outcome)];
        }
        assert waiters[..|waiters|] == waiters;
      }
    }
  }
}
