/**
  The two-tier secret store of electron/main/agent/agent-secret-store-bridge.ts: a host process
  that is asked first, and the platform store it falls back on and migrates from.

  Calls overlap.  Each call under way is in the state, with the promise it waits for; a request to
  the host is carried out at some moment after it is sent, or never, and its promise settles later.
 */
module SecretBridge {
  import opened Common

  const BACKOFF_MS: int := 5000

  type Secrets = map<string, string>
  datatype Call = Get(ref: string) | Put(ref: string, value: string) | Delete(ref: string)

  /** What a call under way waits for; `seen` and `done` tell whether the host has carried it out. */
  datatype Phase =
    | Reading(ref: string, seen: Option<Option<string>>)
    | Fetching(ref: string)
    | Migrating(ref: string, legacy: string, done: bool)
    | Putting(ref: string, value: string, done: bool)
    | Deleting(ref: string, done: bool)
    | GetFallback(ref: string)
    | PutFallback(ref: string, value: string)
    | DeleteFallback(ref: string)

  datatype Answer = Answer(ref: string, value: Option<string>)
  /** `answers` is a history variable: what the calls that read have answered. */
  datatype State = State(
    attached: bool, available: bool, lastFailure: int, migrated: set<string>,
    host: Secrets, fallback: Secrets, calls: map<nat, Phase>, answers: map<nat, Answer>)

  datatype Op =
    | Start(id: nat, call: Call, now: int)
    | Perform(id: nat)
    | Settle(id: nat, ok: bool, now: int)
    | Attach(present: bool)
    | Reset

  function Look(m: Secrets, ref: string): Option<string> {
    if ref in m then Some(m[ref]) else None
  }

  // ---------- Availability ----------

  predicate InBackoff(s: State, now: int) {
    s.lastFailure > 0 && now - s.lastFailure < BACKOFF_MS
  }

  predicate TriesHost(s: State, now: int) {
    s.attached && s.available && !InBackoff(s, now)
  }

  /** What a settled promise says about the host. */
  datatype Verdict = Quiet | Success | Failure

  function Recorded(s: State, verdict: Verdict, now: int): State {
    match verdict
    case Quiet => s
    case Success => if !s.available || s.lastFailure > 0 then s.(available := true, lastFailure := 0) else s
    case Failure => s.(available := false, lastFailure := now)
  }

  // ---------- The course of a call ----------

  /** A call up to its first await. */
  function FirstPhase(call: Call, tries: bool): Phase {
    match call
    case Get(ref) => if tries then Reading(ref, None) else GetFallback(ref)
    case Put(ref, value) => if tries then Putting(ref, value, false) else PutFallback(ref, value)
    case Delete(ref) => if tries then Deleting(ref, false) else DeleteFallback(ref)
  }

  function Started(s: State, id: nat, call: Call, now: int): State {
    if id in s.calls || id in s.answers then s
    else s.(calls := s.calls[id := FirstPhase(call, TriesHost(s, now))])
  }

  /** A request once the host has carried it out, and what that makes of the host. */
  function Carried(phase: Phase, host: Secrets): Phase {
    match phase
    case Reading(ref, seen) => if seen.None? then Reading(ref, Some(Look(host, ref))) else phase
    case Migrating(ref, legacy, _) => Migrating(ref, legacy, true)
    case Putting(ref, value, _) => Putting(ref, value, true)
    case Deleting(ref, _) => Deleting(ref, true)
    case _ => phase
  }

  function HostAfter(phase: Phase, host: Secrets): Secrets {
    match phase
    case Migrating(ref, legacy, done) => if done then host else host[ref := legacy]
    case Putting(ref, value, done) => if done then host else host[ref := value]
    case Deleting(ref, done) => if done then host else host - {ref}
    case _ => host
  }

  function Performed(s: State, id: nat): State {
    if id !in s.calls then s
    else s.(host := HostAfter(s.calls[id], s.host), calls := s.calls[id := Carried(s.calls[id], s.host)])
  }

  /**
    A request that was not carried out cannot have succeeded; one that failed may have been.  The
    write of a migration that comes upon no host fails at once.
   */
  function VerdictOf(s: State, phase: Phase, ok: bool): Verdict {
    match phase
    case Reading(_, seen) => if !ok then Failure else if seen.Some? then Success else Quiet
    case Fetching(ref) => if ref in s.fallback && !s.attached then Failure else Quiet
    case Migrating(_, _, _) => if ok then Quiet else Failure
    case Putting(_, _, done) => if !ok then Failure else if done then Success else Quiet
    case Deleting(_, done) => if !ok then Failure else if done then Success else Quiet
    case _ => Quiet
  }

  /** What a call does when the promise it waits for settles. */
  datatype Next = Stays | Goes(phase: Phase) | Replies(value: Option<string>) | Ends

  function NextOf(s: State, phase: Phase, ok: bool): Next {
    match phase
    case Reading(ref, seen) =>
      if ok && seen.None? then Stays
      else if ok && seen.value.Some? then Replies(seen.value)
      else Goes(if ref in s.migrated then GetFallback(ref) else Fetching(ref))
    case Fetching(ref) =>
      if ref in s.fallback && s.attached then Goes(Migrating(ref, s.fallback[ref], false)) else Replies(Look(s.fallback, ref))
    case Migrating(_, legacy, done) => if ok && !done then Stays else Replies(Some(legacy))
    case Putting(ref, value, done) => if !ok then Goes(PutFallback(ref, value)) else if done then Ends else Stays
    case Deleting(ref, done) => if !ok then Goes(DeleteFallback(ref)) else if done then Ends else Stays
    case GetFallback(ref) => Replies(Look(s.fallback, ref))
    case PutFallback(_, _) => Ends
    case DeleteFallback(_) => Ends
  }

  /** A legacy value is looked up to be migrated once for each secret. */
  function MigratedAfter(migrated: set<string>, next: Next): set<string> {
    if next.Goes? && next.phase.Fetching? then migrated + {next.phase.ref} else migrated
  }

  function FallbackAfter(phase: Phase, fallback: Secrets): Secrets {
    match phase
    case PutFallback(ref, value) => fallback[ref := value]
    case DeleteFallback(ref) => fallback - {ref}
    case _ => fallback
  }

  function CallsAfter(calls: map<nat, Phase>, id: nat, next: Next): map<nat, Phase> {
    match next
    case Stays => calls
    case Goes(phase) => calls[id := phase]
    case Replies(_) => calls - {id}
    case Ends => calls - {id}
  }

  /** The promise a call waits for settles, and the call goes on to its next await or its end. */
  function Settled(s: State, id: nat, ok: bool, now: int): State {
    if id !in s.calls then s
    else
      var phase, next := s.calls[id], NextOf(s, s.calls[id], ok);
      Recorded(s, VerdictOf(s, phase, ok), now).(
        migrated := MigratedAfter(s.migrated, next),
        fallback := FallbackAfter(phase, s.fallback),
        calls := CallsAfter(s.calls, id, next),
        answers := if next.Replies? then s.answers[id := Answer(phase.ref, next.value)] else s.answers)
  }

  function Step(s: State, op: Op): State {
    match op
    case Start(id, call, now) => Started(s, id, call, now)
    case Perform(id) => Performed(s, id)
    case Settle(id, ok, now) => Settled(s, id, ok, now)
    case Attach(present) => s.(attached := present, available := present, lastFailure := 0)
    case Reset => s.(attached := false, available := true, lastFailure := 0, migrated := {})
  }

  function Run(s: State, ops: seq<Op>): State
    decreases |ops|
  {
    if ops == [] then s else Run(Step(s, ops[0]), ops[1..])
  }

  // ---------- One step at a time ----------

  predicate SameCall(s: State, t: State, id: nat) {
    && (id in s.calls <==> id in t.calls) && (id in s.calls ==> t.calls[id] == s.calls[id])
    && (id in s.answers <==> id in t.answers) && (id in s.answers ==> t.answers[id] == s.answers[id])
  }

  /** The call an operation moves on. */
  predicate Moves(op: Op, id: nat) {
    (op.Start? || op.Perform? || op.Settle?) && op.id == id
  }

  lemma {:induction false} SettleElsewhere(s: State, id: nat, ok: bool, now: int, other: nat)
    requires other != id
    ensures SameCall(s, Settled(s, id, ok, now), other)
  {
  }

  lemma {:induction false} StepElsewhere(s: State, op: Op, id: nat)
    requires !Moves(op, id)
    ensures SameCall(s, Step(s, op), id)
  {
    if op.Settle? {
      SettleElsewhere(s, op.id, op.ok, op.now, id);
    }
  }

  /** Only the host's work changes the host. */
  lemma {:induction false} SettleKeepsHost(s: State, id: nat, ok: bool, now: int)
    ensures Settled(s, id, ok, now).host == s.host && Settled(s, id, ok, now).attached == s.attached
  {
  }

  /** What a settled promise does to the platform store. */
  lemma {:induction false} SettleFallback(s: State, id: nat, ok: bool, now: int)
    ensures Settled(s, id, ok, now).fallback ==
      if id in s.calls && s.calls[id].PutFallback? then s.fallback[s.calls[id].ref := s.calls[id].value]
      else if id in s.calls && s.calls[id].DeleteFallback? then s.fallback - {s.calls[id].ref}
      else s.fallback
  {
  }

  lemma {:induction false} AnsweredStays(s: State, op: Op, id: nat)
    requires id in s.answers && id !in s.calls
    ensures SameCall(s, Step(s, op), id)
  {
    if !Moves(op, id) {
      StepElsewhere(s, op, id);
    }
  }

  lemma {:induction false} AnswersKept(s: State, ops: seq<Op>, id: nat)
    requires id in s.answers && id !in s.calls
    ensures id in Run(s, ops).answers && id !in Run(s, ops).calls && Run(s, ops).answers[id] == s.answers[id]
    decreases |ops|
  {
    if ops != [] {
      AnsweredStays(s, ops[0], id);
      AnswersKept(Step(s, ops[0]), ops[1..], id);
    }
  }

  // ---------- A read that nothing interrupts ----------

  /** What a read begun now answers if nothing else happens until its end. */
  function ReadBack(s: State, ref: string, now: int): Option<string> {
    if TriesHost(s, now) && ref in s.host then Some(s.host[ref]) else Look(s.fallback, ref)
  }

  /** A read that goes well; the steps beyond its end do nothing. */
  function WholeGet(id: nat, ref: string, now: int): seq<Op> {
    [Start(id, Get(ref), now), Perform(id), Settle(id, true, now), Settle(id, true, now), Perform(id), Settle(id, true, now)]
  }

  lemma {:induction false} RunCons(s: State, op: Op, rest: seq<Op>)
    ensures Run(s, [op] + rest) == Run(Step(s, op), rest)
  {
    assert ([op] + rest)[1..] == rest;
  }

  lemma {:induction false} RunSix(s: State, a: Op, b: Op, c: Op, d: Op, e: Op, f: Op)
    ensures Run(s, [a, b, c, d, e, f]) == Step(Step(Step(Step(Step(Step(s, a), b), c), d), e), f)
  {
    var s1 := Step(s, a);
    var s2 := Step(s1, b);
    var s3 := Step(s2, c);
    assert [a, b, c, d, e, f] == [a] + ([b] + ([c] + [d, e, f]));
    RunCons(s, a, [b] + ([c] + [d, e, f]));
    RunCons(s1, b, [c] + [d, e, f]);
    RunCons(s2, c, [d, e, f]);
    RunThree(s3, d, e, f);
  }

  lemma {:induction false} RunThree(s: State, a: Op, b: Op, c: Op)
    ensures Run(s, [a, b, c]) == Step(Step(Step(s, a), b), c)
  {
    var s1 := Step(s, a);
    var s2 := Step(s1, b);
    assert [a, b, c] == [a] + ([b] + ([c] + []));
    RunCons(s, a, [b] + ([c] + []));
    RunCons(s1, b, [c] + []);
    RunCons(s2, c, []);
  }

  lemma {:induction false} WholeGetAnswers(s: State, id: nat, ref: string, now: int)
    requires id !in s.calls && id !in s.answers
    ensures var t := Run(s, WholeGet(id, ref, now));
      t.calls == s.calls && t.answers == s.answers[id := Answer(ref, ReadBack(s, ref, now))]
  {
    var ok := Settle(id, true, now);
    RunSix(s, Start(id, Get(ref), now), Perform(id), ok, ok, Perform(id), ok);
    var t := ThreeSteps(s, id, ref, now);
    ThreeStepsDone(s, id, ref, now);
    WholeGetEnds(t, id, ok);
    CallsBack(s.calls, t.calls, id);
  }

  lemma {:induction false} CallsBack(before: map<nat, Phase>, after: map<nat, Phase>, id: nat)
    requires id !in before && (after == before || (id in after && after == before[id := after[id]]))
    ensures after - {id} == before
  {
  }

  function ThreeSteps(s: State, id: nat, ref: string, now: int): State {
    Step(Step(Step(s, Start(id, Get(ref), now)), Perform(id)), Settle(id, true, now))
  }

  /** After three steps the read is over, or waits for the platform store with nothing left to miss. */
  lemma {:induction false} ThreeStepsDone(s: State, id: nat, ref: string, now: int)
    requires id !in s.calls && id !in s.answers
    ensures var t := ThreeSteps(s, id, ref, now);
      if id !in t.calls then t.calls == s.calls && t.answers == s.answers[id := Answer(ref, ReadBack(s, ref, now))]
      else
        && t.calls == s.calls[id := t.calls[id]] && t.answers == s.answers && t.calls[id].ref == ref
        && (t.calls[id].GetFallback? || (t.calls[id].Fetching? && t.attached))
        && Look(t.fallback, ref) == ReadBack(s, ref, now)
  {
    if TriesHost(s, now) {
      AskedGet(s, id, ref, now);
    } else {
      FallenGet(s, id, ref, now);
    }
  }

  /** A read that goes to the platform store at once. */
  lemma {:induction false} FallenGet(s: State, id: nat, ref: string, now: int)
    requires id !in s.calls && id !in s.answers && !TriesHost(s, now)
    ensures var t := ThreeSteps(s, id, ref, now);
      t.calls == s.calls && t.answers == s.answers[id := Answer(ref, Look(s.fallback, ref))]
  {
    var u := Step(Step(s, Start(id, Get(ref), now)), Perform(id));
    assert u.calls == s.calls[id := GetFallback(ref)];
    assert s.calls[id := GetFallback(ref)] - {id} == s.calls;
  }

  /** A read that asks the host, up to the host's answer. */
  lemma {:induction false} AskedGet(s: State, id: nat, ref: string, now: int)
    requires id !in s.calls && id !in s.answers && TriesHost(s, now)
    ensures var t := ThreeSteps(s, id, ref, now);
      && t.attached && t.fallback == s.fallback
      && if ref in s.host then t.calls == s.calls && t.answers == s.answers[id := Answer(ref, Some(s.host[ref]))]
         else t.answers == s.answers && t.calls == s.calls[id := if ref in s.migrated then GetFallback(ref) else Fetching(ref)]
  {
    var u := Step(Step(s, Start(id, Get(ref), now)), Perform(id));
    assert u.calls == s.calls[id := Reading(ref, Some(Look(s.host, ref)))];
    assert s.calls[id := Reading(ref, Some(Look(s.host, ref)))] - {id} == s.calls;
  }

  /** The last steps of a read, from wherever its third has left it. */
  lemma {:induction false} WholeGetEnds(t: State, id: nat, ok: Op)
    requires ok.Settle? && ok.id == id && ok.ok
    requires id in t.calls ==> t.calls[id].GetFallback? || (t.calls[id].Fetching? && t.attached)
    ensures var u := Step(Step(Step(t, ok), Perform(id)), ok);
      && u.calls == t.calls - {id}
      && u.answers == if id in t.calls then t.answers[id := Answer(t.calls[id].ref, Look(t.fallback, t.calls[id].ref))] else t.answers
  {
  }

  // ---------- Reads through migration, attaches and failures ----------

  /** The host holds nothing for the secret, or what the platform store holds. */
  predicate HostFollows(s: State, ref: string) {
    ref in s.host ==> Look(s.host, ref) == Look(s.fallback, ref)
  }

  /** A call under way on the secret only reads it, and has seen what the platform store holds. */
  predicate PhaseFollows(s: State, ref: string, phase: Phase) {
    phase.ref == ref ==>
      match phase
      case Reading(_, seen) => seen.Some? && seen.value.Some? ==> seen.value == Look(s.fallback, ref)
      case Migrating(_, legacy, _) => Some(legacy) == Look(s.fallback, ref)
      case Fetching(_) => true
      case GetFallback(_) => true
      case _ => false
  }

  ghost predicate Follows(s: State, ref: string) {
    HostFollows(s, ref) && forall id :: id in s.calls ==> PhaseFollows(s, ref, s.calls[id])
  }

  predicate Writes(op: Op, ref: string) {
    op.Start? && !op.call.Get? && op.call.ref == ref
  }

  /** The call reads the secret, ends in this step, and answers what the platform store holds. */
  ghost predicate AnswersFollow(s: State, t: State, ref: string) {
    forall id :: id in t.answers && id !in s.answers && t.answers[id].ref == ref ==>
      t.answers[id].value == Look(s.fallback, ref) && id !in t.calls
  }

  lemma {:induction false} PerformKeepsFollowing(s: State, ref: string, id: nat)
    requires Follows(s, ref)
    ensures Follows(Performed(s, id), ref)
  {
    if id in s.calls {
      assert PhaseFollows(s, ref, s.calls[id]);
    }
  }

  /** The call that goes on: what it waits for next, or what it answers. */
  lemma {:induction false} SettledFollows(s: State, ref: string, id: nat, ok: bool, now: int)
    requires HostFollows(s, ref) && id in s.calls && PhaseFollows(s, ref, s.calls[id])
    ensures var t := Settled(s, id, ok, now);
      && (id in t.calls ==> PhaseFollows(s, ref, t.calls[id]))
      && (id in t.answers && id !in s.answers ==> id !in t.calls)
      && (id in t.answers && id !in s.answers && t.answers[id].ref == ref ==> t.answers[id].value == Look(s.fallback, ref))
  {
  }

  lemma {:induction false} SettleKeepsFollowing(s: State, ref: string, id: nat, ok: bool, now: int)
    requires Follows(s, ref)
    ensures var t := Settled(s, id, ok, now);
      Follows(t, ref) && Look(t.fallback, ref) == Look(s.fallback, ref) && AnswersFollow(s, t, ref)
  {
    if id in s.calls {
      var t := Settled(s, id, ok, now);
      assert PhaseFollows(s, ref, s.calls[id]);
      SettledFollows(s, ref, id, ok, now);
      SettleKeepsHost(s, id, ok, now);
      SettleFallback(s, id, ok, now);
      forall j | j in t.calls ensures PhaseFollows(t, ref, t.calls[j]) {
        if j != id { SettleElsewhere(s, id, ok, now, j); }
      }
      forall j | j in t.answers && j !in s.answers && t.answers[j].ref == ref
        ensures t.answers[j].value == Look(s.fallback, ref) && j !in t.calls
      {
        if j != id { SettleElsewhere(s, id, ok, now, j); }
      }
    }
  }

  lemma {:induction false} StepKeepsFollowing(s: State, ref: string, op: Op)
    requires Follows(s, ref) && !Writes(op, ref)
    ensures var t := Step(s, op);
      Follows(t, ref) && Look(t.fallback, ref) == Look(s.fallback, ref) && AnswersFollow(s, t, ref)
  {
    match op
    case Start(id, call, now) =>
    case Perform(id) => PerformKeepsFollowing(s, ref, id);
    case Settle(id, ok, now) => SettleKeepsFollowing(s, ref, id, ok, now);
    case Attach(_) =>
    case Reset =>
  }

  /**
    While nobody writes a secret, every read of it answers what the platform store holds, however
    the calls overlap, and through any attaches, resets, failures, migrations and writes of others.
   */
  lemma {:induction false} ReadsAreTransparent(s: State, ref: string, ops: seq<Op>)
    requires Follows(s, ref) && forall k :: 0 <= k < |ops| ==> !Writes(ops[k], ref)
    ensures var t := Run(s, ops);
      Follows(t, ref) && Look(t.fallback, ref) == Look(s.fallback, ref) && AnswersFollow(s, t, ref)
    decreases |ops|
  {
    if ops != [] {
      var u, t := Step(s, ops[0]), Run(s, ops);
      assert !Writes(ops[0], ref);
      StepKeepsFollowing(s, ref, ops[0]);
      ReadsAreTransparent(u, ref, ops[1..]);
      forall id | id in t.answers && id !in s.answers && t.answers[id].ref == ref
        ensures t.answers[id].value == Look(s.fallback, ref) && id !in t.calls
      {
        if id in u.answers {
          NewAnswer(s, ops[0], id);
          AnswersKept(u, ops[1..], id);
        }
      }
    }
  }

  lemma {:induction false} NewAnswer(s: State, op: Op, id: nat)
    requires id !in s.answers && id in Step(s, op).answers
    ensures id !in Step(s, op).calls
  {
    if !Moves(op, id) {
      StepElsewhere(s, op, id);
    }
  }

  // ---------- What the host holds, and one map ----------

  /** A write of a secret at the host: its new value, and whether a migration wrote it. */
  datatype Write = Write(value: Option<string>, migration: bool)

  function WriteOf(s: State, op: Op, ref: string): Option<Write> {
    if !op.Perform? || op.id !in s.calls || s.calls[op.id].ref != ref then None
    else
      match s.calls[op.id]
      case Migrating(_, legacy, done) => if done then None else Some(Write(Some(legacy), true))
      case Putting(_, value, done) => if done then None else Some(Write(Some(value), false))
      case Deleting(_, done) => if done then None else Some(Write(None, false))
      case _ => None
  }

  /** The writes of a secret that the host carries out in a run, in order. */
  function HostWrites(s: State, ops: seq<Op>, ref: string): seq<Write>
    decreases |ops|
  {
    if ops == [] then []
    else
      var w := WriteOf(s, ops[0], ref);
      (if w.Some? then [w.value] else []) + HostWrites(Step(s, ops[0]), ops[1..], ref)
  }

  lemma {:induction false} StepHost(s: State, op: Op, ref: string)
    ensures Look(Step(s, op).host, ref)
         == if WriteOf(s, op, ref).Some? then WriteOf(s, op, ref).value.value else Look(s.host, ref)
  {
    match op
    case Start(_, _, _) =>
    case Perform(_) =>
    case Settle(id, ok, now) => SettleKeepsHost(s, id, ok, now);
    case Attach(_) =>
    case Reset =>
  }

  /** The host is one map: it holds what the last write it carried out has put there. */
  lemma {:induction false} HostHoldsLastWrite(s: State, ops: seq<Op>, ref: string)
    ensures var ws := HostWrites(s, ops, ref);
      Look(Run(s, ops).host, ref) == if ws == [] then Look(s.host, ref) else ws[|ws| - 1].value
    decreases |ops|
  {
    if ops != [] {
      StepHost(s, ops[0], ref);
      HostHoldsLastWrite(Step(s, ops[0]), ops[1..], ref);
    }
  }

  predicate Healthy(s: State) {
    s.attached && s.available && s.lastFailure <= 0
  }

  /** The step brings no failure and leaves the host attached. */
  predicate Calm(op: Op) {
    (op.Settle? ==> op.ok) && (op.Attach? ==> op.present) && !op.Reset?
  }

  /** A healthy host, and a secret the platform store neither holds nor is about to hold. */
  ghost predicate HostOnly(s: State, ref: string) {
    && Healthy(s) && ref !in s.fallback
    && forall id :: id in s.calls ==> !(s.calls[id].PutFallback? && s.calls[id].ref == ref)
  }

  lemma {:induction false} StepKeepsHostOnly(s: State, ref: string, op: Op)
    requires HostOnly(s, ref) && Calm(op)
    ensures HostOnly(Step(s, op), ref)
  {
  }

  lemma {:induction false} RunKeepsHostOnly(s: State, ref: string, ops: seq<Op>)
    requires HostOnly(s, ref) && forall k :: 0 <= k < |ops| ==> Calm(ops[k])
    ensures HostOnly(Run(s, ops), ref)
    decreases |ops|
  {
    if ops != [] {
      assert Calm(ops[0]);
      StepKeepsHostOnly(s, ref, ops[0]);
      RunKeepsHostOnly(Step(s, ops[0]), ref, ops[1..]);
    }
  }

  /** The host has told the call `v`, which is nothing if the call has gone on to the platform store. */
  predicate HasSeen(s: State, id: nat, ref: string, v: Option<string>) {
    id in s.calls && s.calls[id].ref == ref &&
      (s.calls[id] == Reading(ref, Some(v)) || (v == None && (s.calls[id].Fetching? || s.calls[id].GetFallback?)))
  }

  lemma {:induction false} SeenStep(s: State, id: nat, ref: string, v: Option<string>, op: Op)
    requires HostOnly(s, ref) && Calm(op) && HasSeen(s, id, ref, v) && id !in s.answers
    ensures var t := Step(s, op);
      || (HasSeen(t, id, ref, v) && id !in t.answers)
      || (id !in t.calls && id in t.answers && t.answers[id] == Answer(ref, v))
  {
  }

  /** What the host has told a call is what the call answers. */
  lemma {:induction false} SeenIsAnswered(s: State, id: nat, ref: string, v: Option<string>, ops: seq<Op>)
    requires HostOnly(s, ref) && forall k :: 0 <= k < |ops| ==> Calm(ops[k])
    requires HasSeen(s, id, ref, v) && id !in s.answers
    ensures id !in Run(s, ops).calls ==> id in Run(s, ops).answers && Run(s, ops).answers[id] == Answer(ref, v)
    decreases |ops|
  {
    if ops != [] {
      assert Calm(ops[0]);
      SeenStep(s, id, ref, v, ops[0]);
      StepKeepsHostOnly(s, ref, ops[0]);
      if id in Step(s, ops[0]).calls {
        SeenIsAnswered(Step(s, ops[0]), id, ref, v, ops[1..]);
      } else {
        AnswersKept(Step(s, ops[0]), ops[1..], id);
      }
    }
  }

  /**
    Through a healthy host, on a secret the platform store does not hold, every read answers what
    the host held at some moment between the read's begin and its end; together with
    `HostHoldsLastWrite`, overlapping calls behave as calls on one map.
   */
  lemma {:induction false} HealthyHostIsOneMap(s: State, id: nat, ref: string, ops: seq<Op>) returns (k: nat)
    requires HostOnly(s, ref) && forall j :: 0 <= j < |ops| ==> Calm(ops[j])
    requires id in s.calls && s.calls[id] == Reading(ref, None) && id !in s.answers
    ensures k <= |ops|
    ensures id !in Run(s, ops).calls ==>
      id in Run(s, ops).answers && Run(s, ops).answers[id] == Answer(ref, Look(Run(s, ops[..k]).host, ref))
    decreases |ops|
  {
    k := 0;
    if ops != [] {
      var op, t := ops[0], Step(s, ops[0]);
      assert Calm(op);
      StepKeepsHostOnly(s, ref, op);
      if op == Perform(id) {
        assert HasSeen(t, id, ref, Look(s.host, ref));
        SeenIsAnswered(t, id, ref, Look(s.host, ref), ops[1..]);
      } else {
        ReadingStays(s, id, ref, op);
        k := HealthyHostIsOneMap(t, id, ref, ops[1..]);
        assert ops[..k + 1] == [op] + ops[1..][..k];
        RunCons(s, op, ops[1..][..k]);
        k := k + 1;
      }
    }
  }

  lemma {:induction false} ReadingStays(s: State, id: nat, ref: string, op: Op)
    requires id in s.calls && s.calls[id] == Reading(ref, None) && id !in s.answers && op != Perform(id) && Calm(op)
    ensures var t := Step(s, op); id in t.calls && t.calls[id] == Reading(ref, None) && id !in t.answers
  {
    if !Moves(op, id) {
      StepElsewhere(s, op, id);
    }
  }

  // ---------- Where the tiers show ----------

  /** A secret deleted at a healthy host is gone exactly when the platform store does not hold it. */
  lemma {:induction false} DeletedStaysDeletedIff(s: State, id: nat, ref: string, now: int, later: int)
    requires Healthy(s) && id !in s.calls && id !in s.answers
    ensures var t := Run(s, [Start(id, Delete(ref), now), Perform(id), Settle(id, true, later)]);
      && ReadBack(t, ref, later) == Look(s.fallback, ref)
      && (ReadBack(t, ref, later) == None <==> ref !in s.fallback)
  {
    RunThree(s, Start(id, Delete(ref), now), Perform(id), Settle(id, true, later));
  }

  /**
    A secret stored while the host was out is read back after the host returns exactly when the
    host has no value for it, or the same one.
   */
  lemma {:induction false} StoredDuringOutageIff(s: State, id: nat, ref: string, value: string, now: int, later: int)
    requires !TriesHost(s, now) && id !in s.calls && id !in s.answers
    ensures var t := Run(s, [Start(id, Put(ref, value), now), Settle(id, true, now), Attach(true)]);
      ReadBack(t, ref, later) == Some(value) <==> (ref in s.host ==> s.host[ref] == value)
  {
    RunThree(s, Start(id, Put(ref, value), now), Settle(id, true, now), Attach(true));
  }

  // ---------- Puts and migrations ----------

  /**
    The value last put at the host is read back, after any run, exactly when the last migration
    carried out after the put, if any, wrote the same; while the host is out, exactly when the
    platform store holds the same.
   */
  lemma {:induction false} LastPutReadBackIff(s: State, ops: seq<Op>, ref: string, p: nat, value: string, now: int)
    requires p < |HostWrites(s, ops, ref)| && HostWrites(s, ops, ref)[p] == Write(Some(value), false)
    requires forall k :: p < k < |HostWrites(s, ops, ref)| ==> HostWrites(s, ops, ref)[k].migration
    ensures var t, ws := Run(s, ops), HostWrites(s, ops, ref);
      ReadBack(t, ref, now) == Some(value) <==>
        if !TriesHost(t, now) then Look(t.fallback, ref) == Some(value)
        else p == |ws| - 1 || ws[|ws| - 1].value == Some(value)
  {
    HostHoldsLastWrite(s, ops, ref);
    MigrationsWriteValues(s, ops, ref);
  }

  lemma {:induction false} MigrationsWriteValues(s: State, ops: seq<Op>, ref: string)
    ensures forall k :: 0 <= k < |HostWrites(s, ops, ref)| && HostWrites(s, ops, ref)[k].migration ==>
      HostWrites(s, ops, ref)[k].value.Some?
    decreases |ops|
  {
    if ops != [] {
      MigrationsWriteValues(Step(s, ops[0]), ops[1..], ref);
    }
  }

  /** The platform store's value of a secret is not written in the step. */
  predicate LeavesLegacy(s: State, op: Op, ref: string) {
    op.Settle? && op.id in s.calls && s.calls[op.id].ref == ref ==>
      !s.calls[op.id].PutFallback? && !s.calls[op.id].DeleteFallback?
  }

  predicate AllLeaveLegacy(s: State, ops: seq<Op>, ref: string)
    decreases |ops|
  {
    ops == [] || (LeavesLegacy(s, ops[0], ref) && AllLeaveLegacy(Step(s, ops[0]), ops[1..], ref))
  }

  /** Migrations of the secret under way carry the value the platform store holds. */
  ghost predicate CarriesLegacy(s: State, ref: string) {
    forall id :: id in s.calls && s.calls[id].Migrating? && s.calls[id].ref == ref ==>
      Some(s.calls[id].legacy) == Look(s.fallback, ref)
  }

  lemma {:induction false} StepCarriesLegacy(s: State, op: Op, ref: string)
    requires CarriesLegacy(s, ref) && LeavesLegacy(s, op, ref)
    ensures CarriesLegacy(Step(s, op), ref) && Look(Step(s, op).fallback, ref) == Look(s.fallback, ref)
  {
    var t := Step(s, op);
    if op.Settle? {
      SettleFallback(s, op.id, op.ok, op.now);
    }
    forall id | id in t.calls && t.calls[id].Migrating? && t.calls[id].ref == ref
      ensures Some(t.calls[id].legacy) == Look(t.fallback, ref)
    {
      if Moves(op, id) {
        MigratingFrom(s, op);
      } else {
        StepElsewhere(s, op, id);
      }
    }
  }

  /** Where a migration's write under way comes from. */
  lemma {:induction false} MigratingFrom(s: State, op: Op)
    requires op.Start? || op.Perform? || op.Settle?
    requires op.id in Step(s, op).calls && Step(s, op).calls[op.id].Migrating?
    ensures op.id in s.calls
    ensures var before, after := s.calls[op.id], Step(s, op).calls[op.id];
      && before.ref == after.ref
      && ((before.Migrating? && before.legacy == after.legacy)
          || (before.Fetching? && Look(s.fallback, after.ref) == Some(after.legacy)))
  {
  }

  lemma {:induction false} MigrationsWriteLegacy(s: State, ops: seq<Op>, ref: string)
    requires CarriesLegacy(s, ref) && AllLeaveLegacy(s, ops, ref)
    ensures Look(Run(s, ops).fallback, ref) == Look(s.fallback, ref)
    ensures forall k :: 0 <= k < |HostWrites(s, ops, ref)| && HostWrites(s, ops, ref)[k].migration ==>
      HostWrites(s, ops, ref)[k].value == Look(s.fallback, ref)
    decreases |ops|
  {
    if ops != [] {
      StepCarriesLegacy(s, ops[0], ref);
      MigrationsWriteLegacy(Step(s, ops[0]), ops[1..], ref);
    }
  }

  /**
    While the platform store's own value stays, whatever overlaps: the value last put at the host is
    read back exactly when it is the legacy value, or the host is up and no migration of the secret
    was carried out after the put.
   */
  lemma {:induction false} MigrationOverwritesIff(s: State, ops: seq<Op>, ref: string, p: nat, value: string, now: int)
    requires CarriesLegacy(s, ref) && AllLeaveLegacy(s, ops, ref)
    requires p < |HostWrites(s, ops, ref)| && HostWrites(s, ops, ref)[p] == Write(Some(value), false)
    requires forall k :: p < k < |HostWrites(s, ops, ref)| ==> HostWrites(s, ops, ref)[k].migration
    ensures ReadBack(Run(s, ops), ref, now) == Some(value) <==>
      || Look(s.fallback, ref) == Some(value)
      || (TriesHost(Run(s, ops), now) && p == |HostWrites(s, ops, ref)| - 1)
  {
    LastPutReadBackIff(s, ops, ref, p, value, now);
    MigrationsWriteLegacy(s, ops, ref);
  }

  // ---------- Falling back ----------

  /** A put that fails at the host is stored in the platform store, and a delete removes from it. */
  lemma {:induction false} FailureFallsBack(s: State, id: nat, ref: string, value: string, done: bool, now: int)
    requires id in s.calls
    ensures s.calls[id] == Putting(ref, value, done) ==>
      var t := Step(Step(s, Settle(id, false, now)), Settle(id, true, now));
      t.fallback == s.fallback[ref := value] && t.calls == s.calls - {id} && !t.available && t.host == s.host
    ensures s.calls[id] == Deleting(ref, done) ==>
      var t := Step(Step(s, Settle(id, false, now)), Settle(id, true, now));
      t.fallback == s.fallback - {ref} && t.calls == s.calls - {id} && !t.available && t.host == s.host
  {
    assert s.calls[id := PutFallback(ref, value)] - {id} == s.calls - {id};
    assert s.calls[id := DeleteFallback(ref)] - {id} == s.calls - {id};
  }

  /** A success leaves the platform store alone. */
  lemma {:induction false} SuccessSkipsFallback(s: State, id: nat, now: int)
    requires id in s.calls && (s.calls[id].Putting? || s.calls[id].Deleting?) && s.calls[id].done
    ensures var t := Step(s, Settle(id, true, now));
      t.fallback == s.fallback && t.host == s.host && t.calls == s.calls - {id} && t.available
  {
  }

  /** A secret is looked up for migration at most once until a reset. */
  lemma {:induction false} MigratesOnce(s: State, ops: seq<Op>, ref: string, id: nat)
    requires ref in s.migrated && Reset !in ops
    requires forall j :: j in s.calls ==> s.calls[j] != Fetching(ref)
    ensures ref in Run(s, ops).migrated && (id in Run(s, ops).calls ==> Run(s, ops).calls[id] != Fetching(ref))
    decreases |ops|
  {
    if ops != [] {
      var t := Step(s, ops[0]);
      forall j | j in t.calls ensures t.calls[j] != Fetching(ref) {
        if !Moves(ops[0], j) {
          StepElsewhere(s, ops[0], j);
        }
      }
      MigratesOnce(t, ops[1..], ref, id);
    }
  }

  /** An attached host is tried at once, whatever failed before; a detached one is not. */
  lemma {:induction false} AttachDecides(s: State, present: bool, now: int)
    ensures TriesHost(Step(s, Attach(present)), now) <==> present
    ensures !TriesHost(Step(s, Reset), now) && Step(s, Reset).migrated == {}
  {
  }

  // ---------- How long a failure lasts ----------

  predicate Attaches(op: Op) {
    op.Attach? || op.Reset?
  }

  /** A call begun now would ask the host, at least once any backoff is over. */
  predicate Open(s: State) {
    s.attached && s.available
  }

  predicate AwaitsHost(phase: Phase) {
    phase.Reading? || phase.Putting? || phase.Deleting?
  }

  function HostCalls(s: State): set<nat> {
    set id | id in s.calls && AwaitsHost(s.calls[id])
  }

  /** Reads that have not yet come to write a legacy value. */
  function OpenReads(s: State): set<nat> {
    set id | id in s.calls && (s.calls[id].Reading? || s.calls[id].Fetching?)
  }

  /** A request of the call has been carried out and its success arrives. */
  predicate Succeeds(s: State, op: Op) {
    op.Settle? && op.ok && op.id in s.calls &&
      match s.calls[op.id]
      case Reading(_, seen) => seen.Some?
      case Putting(_, _, done) => done
      case Deleting(_, done) => done
      case _ => false
  }

  /** The call has found a legacy value and sends it to the host. */
  predicate Migrates(s: State, op: Op) {
    op.Settle? && op.id in s.calls && s.calls[op.id].Fetching? && s.attached && s.calls[op.id].ref in s.fallback
  }

  predicate EverOpen(s: State, ops: seq<Op>)
    decreases |ops|
  {
    Open(s) || (ops != [] && EverOpen(Step(s, ops[0]), ops[1..]))
  }

  predicate EverMigrates(s: State, ops: seq<Op>)
    decreases |ops|
  {
    ops != [] && (Migrates(s, ops[0]) || EverMigrates(Step(s, ops[0]), ops[1..]))
  }

  predicate EverSucceeds(s: State, ops: seq<Op>, among: set<nat>)
    decreases |ops|
  {
    ops != [] && ((Succeeds(s, ops[0]) && ops[0].id in among) || EverSucceeds(Step(s, ops[0]), ops[1..], among))
  }

  predicate EverMigratesAmong(s: State, ops: seq<Op>, among: set<nat>)
    decreases |ops|
  {
    ops != [] && ((Migrates(s, ops[0]) && ops[0].id in among) || EverMigratesAmong(Step(s, ops[0]), ops[1..], among))
  }

  /** While the host is out, only a success opens it, and no new call joins those that await it. */
  lemma {:induction false} ClosedStep(s: State, op: Op)
    requires s.attached && !s.available && !Attaches(op)
    ensures Step(s, op).attached && (Step(s, op).available <==> Succeeds(s, op))
    ensures HostCalls(Step(s, op)) <= HostCalls(s) && OpenReads(Step(s, op)) <= OpenReads(s)
  {
    ClosedAvailability(s, op);
    forall id | id in HostCalls(Step(s, op)) ensures id in HostCalls(s) {
      ClosedCalls(s, op, id);
    }
    forall id | id in OpenReads(Step(s, op)) ensures id in OpenReads(s) {
      ClosedCalls(s, op, id);
    }
  }

  lemma {:induction false} ClosedAvailability(s: State, op: Op)
    requires s.attached && !s.available && !Attaches(op)
    ensures Step(s, op).attached && (Step(s, op).available <==> Succeeds(s, op))
  {
  }

  lemma {:induction false} ClosedCalls(s: State, op: Op, id: nat)
    requires s.attached && !s.available && !Attaches(op)
    ensures id in HostCalls(Step(s, op)) ==> id in HostCalls(s)
    ensures id in OpenReads(Step(s, op)) ==> id in OpenReads(s)
  {
    if !Moves(op, id) {
      StepElsewhere(s, op, id);
    }
  }

  lemma {:induction false} ReopenedAmong(s: State, ops: seq<Op>, among: set<nat>)
    requires s.attached && !s.available && HostCalls(s) <= among && forall k :: 0 <= k < |ops| ==> !Attaches(ops[k])
    ensures EverOpen(s, ops) <==> EverSucceeds(s, ops, among)
    decreases |ops|
  {
    if ops != [] {
      assert !Attaches(ops[0]);
      ClosedStep(s, ops[0]);
      if !Succeeds(s, ops[0]) {
        ReopenedAmong(Step(s, ops[0]), ops[1..], among);
      } else {
        assert ops[0].id in HostCalls(s);
      }
    }
  }

  /** After a failure the host is open again before an attach exactly when a call begun earlier succeeds. */
  lemma {:induction false} ReopenedIff(s: State, ops: seq<Op>)
    requires s.attached && !s.available && forall k :: 0 <= k < |ops| ==> !Attaches(ops[k])
    ensures EverOpen(s, ops) <==> EverSucceeds(s, ops, HostCalls(s))
  {
    ReopenedAmong(s, ops, HostCalls(s));
  }

  lemma {:induction false} MigratesOnlyOld(s: State, ops: seq<Op>, among: set<nat>)
    requires s.attached && !s.available && OpenReads(s) <= among && !EverOpen(s, ops)
    requires forall k :: 0 <= k < |ops| ==> !Attaches(ops[k])
    ensures EverMigrates(s, ops) <==> EverMigratesAmong(s, ops, among)
    decreases |ops|
  {
    if ops != [] {
      assert !Attaches(ops[0]);
      ClosedStep(s, ops[0]);
      if Migrates(s, ops[0]) {
        assert ops[0].id in OpenReads(s);
      } else {
        MigratesOnlyOld(Step(s, ops[0]), ops[1..], among);
      }
    }
  }

  lemma {:induction false} AmongMigrates(s: State, ops: seq<Op>, among: set<nat>)
    requires EverMigratesAmong(s, ops, among)
    ensures EverMigrates(s, ops)
    decreases |ops|
  {
    if !(Migrates(s, ops[0]) && ops[0].id in among) {
      AmongMigrates(Step(s, ops[0]), ops[1..], among);
    }
  }

  /**
    After a failure and before any attach, the host is open to new calls at some moment, or sent a
    legacy value, exactly when a call begun before the failure succeeds after it, or a read begun
    before it, the failed one included, comes to migrate.
   */
  lemma {:induction false} AskedAgainIff(s: State, ops: seq<Op>)
    requires s.attached && !s.available && forall k :: 0 <= k < |ops| ==> !Attaches(ops[k])
    ensures EverOpen(s, ops) || EverMigrates(s, ops)
      <==> EverSucceeds(s, ops, HostCalls(s)) || EverMigratesAmong(s, ops, OpenReads(s))
  {
    ReopenedIff(s, ops);
    if !EverOpen(s, ops) {
      MigratesOnlyOld(s, ops, OpenReads(s));
    }
  }

  /** A call of neither kind asks the host: it waits for the platform store alone. */
  ghost predicate NoneAwaitHost(s: State) {
    forall id :: id in s.calls ==> s.calls[id].GetFallback? || s.calls[id].PutFallback? || s.calls[id].DeleteFallback?
  }

  /** With no call under way at the host, a failure lasts until the next attach, whatever time passes. */
  lemma {:induction false} FailureLastsUntilAttach(s: State, ops: seq<Op>, now: int)
    requires !Open(s) && NoneAwaitHost(s) && forall k :: 0 <= k < |ops| ==> !ops[k].Attach?
    ensures !TriesHost(Run(s, ops), now) && NoneAwaitHost(Run(s, ops)) && Run(s, ops).host == s.host
    decreases |ops|
  {
    if ops != [] {
      assert !ops[0].Attach?;
      FailureLastsUntilAttach(Step(s, ops[0]), ops[1..], now);
    }
  }

  /** Two reads are under way and one fails: the success of the other opens the host at once. */
  lemma {:induction false} LateSuccessReopens(s: State, a: nat, b: nat, ref: string, v: Option<string>, now: int, later: int)
    requires s.attached && a != b && a in s.calls && s.calls[a].Reading?
    requires b in s.calls && s.calls[b] == Reading(ref, Some(v))
    ensures !Open(Step(s, Settle(a, false, now)))
    ensures TriesHost(Step(Step(s, Settle(a, false, now)), Settle(b, true, now)), later)
  {
  }

  /** A read that fails still writes its legacy value to the host, which stays out all the same. */
  lemma {:induction false} FailedReadStillWrites(s: State, id: nat, ref: string, seen: Option<Option<string>>, now: int)
    requires s.attached && id in s.calls && s.calls[id] == Reading(ref, seen)
    requires ref !in s.migrated && ref in s.fallback
    ensures var t := Run(s, [Settle(id, false, now), Settle(id, true, now), Perform(id)]);
      Look(t.host, ref) == Look(s.fallback, ref) && !Open(t)
  {
    RunThree(s, Settle(id, false, now), Settle(id, true, now), Perform(id));
  }

  /** A recorded failure always comes with the host being marked unavailable. */
  predicate FailureMarks(s: State) {
    s.lastFailure > 0 ==> !s.available
  }

  /** So in every run, however the calls overlap, the test of the backoff period decides nothing. */
  lemma {:induction false} BackoffDecidesNothing(s: State, ops: seq<Op>, now: int)
    requires FailureMarks(s)
    ensures FailureMarks(Run(s, ops))
    ensures TriesHost(Run(s, ops), now) <==> Open(Run(s, ops))
    decreases |ops|
  {
    if ops != [] {
      BackoffDecidesNothing(Step(s, ops[0]), ops[1..], now);
    }
  }

  // ---------- The bridge ----------

  class SecretStoreBridge {
    var attached: bool
    var available: bool
    var lastFailure: int
    var migratedRefs: set<string>
    var host: Secrets
    var fallback: Secrets
    /** The calls under way, suspended where they await. */
    var calls: map<nat, Phase>
    var answers: map<nat, Answer>

    ghost function Now(): State
      reads this
    {
      State(attached, available, lastFailure, migratedRefs, host, fallback, calls, answers)
    }

    constructor (host: Secrets, fallback: Secrets)
      ensures Now() == State(false, true, 0, {}, host, fallback, map[], map[]) && FailureMarks(Now())
    {
      attached, available, lastFailure, migratedRefs := false, true, 0, {};
      this.host, this.fallback, calls, answers := host, fallback, map[], map[];
    }

    method AttachHost(present: bool)
      modifies this
      ensures Now() == Step(old(Now()), Attach(present))
    {
      attached, available, lastFailure := present, present, 0;
    }

    method ResetBridge()
      modifies this
      ensures Now() == Step(old(Now()), Reset)
    {
      attached, available, lastFailure, migratedRefs := false, true, 0, {};
    }

    method ShouldTryHost(now: int) returns (tries: bool)
      ensures tries <==> TriesHost(Now(), now)
    {
      if !attached || !available {
        return false;
      }
      tries := !(lastFailure > 0 && now - lastFailure < BACKOFF_MS);
    }

    method RecordFailure(now: int)
      modifies this`available, this`lastFailure
      ensures Now() == Recorded(old(Now()), Failure, now)
    {
      available, lastFailure := false, now;
    }

    method RecordSuccess()
      modifies this`available, this`lastFailure
      ensures Now() == Recorded(old(Now()), Success, 0)
    {
      if !available || lastFailure > 0 {
        available, lastFailure := true, 0;
      }
    }

    method Finish(id: nat, ref: string, value: Option<string>)
      modifies this`calls, this`answers
      ensures Now() == old(Now()).(calls := old(calls) - {id}, answers := old(answers)[id := Answer(ref, value)])
    {
      calls := calls - {id};
      answers := answers[id := Answer(ref, value)];
    }

    // ---------- Up to the first await ----------

    method BeginGet(id: nat, ref: string, now: int)
      requires id !in calls && id !in answers
      modifies this`calls
      ensures Now() == Step(old(Now()), Start(id, Get(ref), now))
    {
      var tries := ShouldTryHost(now);
      calls := calls[id := if tries then Reading(ref, None) else GetFallback(ref)];
    }

    method BeginPut(id: nat, ref: string, value: string, now: int)
      requires id !in calls && id !in answers
      modifies this`calls
      ensures Now() == Step(old(Now()), Start(id, Put(ref, value), now))
    {
      var tries := ShouldTryHost(now);
      calls := calls[id := if tries then Putting(ref, value, false) else PutFallback(ref, value)];
    }

    method BeginDelete(id: nat, ref: string, now: int)
      requires id !in calls && id !in answers
      modifies this`calls
      ensures Now() == Step(old(Now()), Start(id, Delete(ref), now))
    {
      var tries := ShouldTryHost(now);
      calls := calls[id := if tries then Deleting(ref, false) else DeleteFallback(ref)];
    }

    // ---------- Between awaits ----------

    /** The host's answer to a read, or its failure. */
    method GetReturns(id: nat, ok: bool, now: int)
      requires id in calls && calls[id].Reading? && (ok ==> calls[id].seen.Some?)
      modifies this
      ensures Now() == Step(old(Now()), Settle(id, ok, now))
    {
      var ref, seen := calls[id].ref, calls[id].seen;
      if ok {
        RecordSuccess();
        if seen.value.Some? {
          Finish(id, ref, seen.value);
          return;
        }
      } else {
        RecordFailure(now);
      }
      MigrateFromFallback(id, ref);
    }

    method MigrateFromFallback(id: nat, ref: string)
      modifies this`calls, this`migratedRefs
      ensures var next := Goes(if ref in old(migratedRefs) then GetFallback(ref) else Fetching(ref));
        Now() == old(Now()).(calls := CallsAfter(old(calls), id, next), migrated := MigratedAfter(old(migratedRefs), next))
    {
      if ref in migratedRefs {
        calls := calls[id := GetFallback(ref)];
        return;
      }
      migratedRefs := migratedRefs + {ref};
      calls := calls[id := Fetching(ref)];
    }

    /** The platform store's answer within a migration. */
    method LegacyReturns(id: nat, now: int)
      requires id in calls && calls[id].Fetching?
      modifies this
      ensures Now() == Step(old(Now()), Settle(id, true, now))
    {
      var ref := calls[id].ref;
      var legacy := Look(fallback, ref);
      if legacy.None? {
        Finish(id, ref, None);
      } else if attached {
        calls := calls[id := Migrating(ref, legacy.value, false)];
      } else {
        RecordFailure(now);
        Finish(id, ref, legacy);
      }
    }

    /** The migration's write has been made, or has failed; the answer is the same. */
    method MigrationReturns(id: nat, ok: bool, now: int)
      requires id in calls && calls[id].Migrating? && (ok ==> calls[id].done)
      modifies this
      ensures Now() == Step(old(Now()), Settle(id, ok, now))
    {
      var ref, legacy := calls[id].ref, calls[id].legacy;
      if !ok {
        RecordFailure(now);
      }
      Finish(id, ref, Some(legacy));
    }

    method PutReturns(id: nat, ok: bool, now: int)
      requires id in calls && calls[id].Putting? && (ok ==> calls[id].done)
      modifies this
      ensures Now() == Step(old(Now()), Settle(id, ok, now))
    {
      if ok {
        RecordSuccess();
        calls := calls - {id};
        return;
      }
      RecordFailure(now);
      calls := calls[id := PutFallback(calls[id].ref, calls[id].value)];
    }

    method DeleteReturns(id: nat, ok: bool, now: int)
      requires id in calls && calls[id].Deleting? && (ok ==> calls[id].done)
      modifies this
      ensures Now() == Step(old(Now()), Settle(id, ok, now))
    {
      if ok {
        RecordSuccess();
        calls := calls - {id};
        return;
      }
      RecordFailure(now);
      calls := calls[id := DeleteFallback(calls[id].ref)];
    }

    /** The platform store has served a call that fell back on it. */
    method FallbackReturns(id: nat, now: int)
      requires id in calls && (calls[id].GetFallback? || calls[id].PutFallback? || calls[id].DeleteFallback?)
      modifies this
      ensures Now() == Step(old(Now()), Settle(id, true, now))
    {
      match calls[id]
      case GetFallback(ref) => Finish(id, ref, Look(fallback, ref));
      case PutFallback(ref, value) =>
        fallback := fallback[ref := value];
        calls := calls - {id};
      case DeleteFallback(ref) =>
        fallback := fallback - {ref};
        calls := calls - {id};
    }
  }
}
