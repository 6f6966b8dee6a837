/**
  The per-kind lifecycle queues of electron/main/agent/lifecycle-tail.ts, with explicit time.

  Each operation starts when the tail of its kind has settled and races against a timer that was
  started when the operation was enqueued.  The tail then settles with the race, whatever its
  outcome.  Time is in milliseconds; the delays of the event loop itself are not counted.
 */
module Lifecycle {
  import opened Common

  datatype Kind = Init | Dispose | Preset | Profile | Reload

  const TIMEOUT_MS: nat := 30000
  const INIT_TIMEOUT_MS: nat := 300000
  const LEGACY_TIMEOUT_MS: nat := 5000

  function DefaultTimeout(kind: Kind): nat {
    if kind == Init then INIT_TIMEOUT_MS else TIMEOUT_MS
  }

  /** An operation takes some time from its start, or hangs; then it resolves or rejects. */
  datatype Operation = Operation(duration: Option<nat>, rejects: bool)
  datatype Submission = Submission(kind: Kind, enqueued: int, timeout: nat, operation: Operation)
  datatype Outcome = Resolved | Rejected | TimedOut
  datatype Slot = Slot(start: int, settled: int, outcome: Outcome)

  // ---------- The race ----------

  function Deadline(s: Submission): int {
    s.enqueued + s.timeout
  }

  function StartOf(tail: Option<int>, s: Submission): int {
    if tail.Some? && tail.value > s.enqueued then tail.value else s.enqueued
  }

  /**
    The operation settles first.  One that is settled as soon as it is called wins even against a
    timer that has already fired, because the race looks at it first.
   */
  predicate WinsRace(s: Submission, start: int) {
    s.operation.duration.Some? &&
      (s.operation.duration.value == 0 || start + s.operation.duration.value < Deadline(s))
  }

  function SlotFrom(s: Submission, start: int): Slot {
    if WinsRace(s, start) then
      Slot(start, start + s.operation.duration.value, if s.operation.rejects then Rejected else Resolved)
    else
      Slot(start, if start > Deadline(s) then start else Deadline(s), TimedOut)
  }

  // ---------- One kind, and all kinds ----------

  /** The schedule of the submissions of one kind, after a tail that settles at `tail`. */
  function Schedule(tail: Option<int>, subs: seq<Submission>): (slots: seq<Slot>)
    ensures |slots| == |subs|
    decreases |subs|
  {
    if subs == [] then []
    else
      var slot := SlotFrom(subs[0], StartOf(tail, subs[0]));
      [slot] + Schedule(Some(slot.settled), subs[1..])
  }

  type Tails = map<Kind, int>

  function TailOf(tails: Tails, kind: Kind): Option<int> {
    if kind in tails then Some(tails[kind]) else None
  }

  /** The schedule of submissions of all kinds, each slot with its kind. */
  function ScheduleAll(tails: Tails, subs: seq<Submission>): seq<(Kind, Slot)>
    decreases |subs|
  {
    if subs == [] then []
    else
      var s := subs[0];
      var slot := SlotFrom(s, StartOf(TailOf(tails, s.kind), s));
      [(s.kind, slot)] + ScheduleAll(tails[s.kind := slot.settled], subs[1..])
  }

  function OfKind(subs: seq<Submission>, kind: Kind): seq<Submission> {
    if subs == [] then []
    else if subs[0].kind == kind then [subs[0]] + OfKind(subs[1..], kind)
    else OfKind(subs[1..], kind)
  }

  function SlotsOfKind(slots: seq<(Kind, Slot)>, kind: Kind): seq<Slot> {
    if slots == [] then []
    else if slots[0].0 == kind then [slots[0].1] + SlotsOfKind(slots[1..], kind)
    else SlotsOfKind(slots[1..], kind)
  }

  /** The schedule of a kind is that of its own submissions alone. */
  lemma {:induction false} KindsAreIndependent(tails: Tails, subs: seq<Submission>, kind: Kind)
    ensures SlotsOfKind(ScheduleAll(tails, subs), kind) == Schedule(TailOf(tails, kind), OfKind(subs, kind))
    decreases |subs|
  {
    if subs != [] {
      var s := subs[0];
      var slot := SlotFrom(s, StartOf(TailOf(tails, s.kind), s));
      var rest := ScheduleAll(tails[s.kind := slot.settled], subs[1..]);
      KindsAreIndependent(tails[s.kind := slot.settled], subs[1..], kind);
      assert ([(s.kind, slot)] + rest)[1..] == rest;
      if s.kind == kind {
        assert ([s] + OfKind(subs[1..], kind))[1..] == OfKind(subs[1..], kind);
      }
    }
  }

  // ---------- Order ----------

  ghost predicate InTime(subs: seq<Submission>) {
    forall i, j :: 0 <= i < j < |subs| ==> subs[i].enqueued <= subs[j].enqueued
  }

  /** The tail before submission `k`. */
  function TailAt(tail: Option<int>, subs: seq<Submission>, k: nat): Option<int>
    requires k <= |subs|
  {
    if k == 0 then tail else Some(Schedule(tail, subs)[k - 1].settled)
  }

  /** Every slot is the race of its submission from the tail left by the one before. */
  lemma {:induction false} SlotAt(tail: Option<int>, subs: seq<Submission>, k: nat)
    requires k < |subs|
    ensures Schedule(tail, subs)[k] == SlotFrom(subs[k], StartOf(TailAt(tail, subs, k), subs[k]))
    decreases |subs|
  {
    if k > 0 {
      var slot := SlotFrom(subs[0], StartOf(tail, subs[0]));
      SlotAt(Some(slot.settled), subs[1..], k - 1);
      assert Schedule(tail, subs)[k] == Schedule(Some(slot.settled), subs[1..])[k - 1];
      assert TailAt(tail, subs, k) == TailAt(Some(slot.settled), subs[1..], k - 1);
    }
  }

  /** Operations start after they were enqueued and after all earlier ones of the kind have settled. */
  lemma {:induction false} StartsInOrder(tail: Option<int>, subs: seq<Submission>, i: nat, j: nat)
    requires i <= j < |subs|
    ensures var slots := Schedule(tail, subs);
      && subs[j].enqueued <= slots[j].start <= slots[j].settled
      && slots[i].start <= slots[j].start && slots[i].settled <= slots[j].settled
      && (i < j ==> slots[i].settled <= slots[j].start)
    decreases j - i
  {
    SlotAt(tail, subs, j);
    if i < j {
      SlotAt(tail, subs, j - 1);
      StartsInOrder(tail, subs, i, j - 1);
    }
  }

  /** The operation settles at once, or before the deadline of its submission, if it starts then. */
  predicate InOwnTime(s: Submission, start: int) {
    match s.operation.duration
    case None => false
    case Some(d) => d == 0 || start + d < s.enqueued + s.timeout
  }

  /**
    Every operation starts at its turn: when it was enqueued, or when its predecessor has settled
    if that is later.  If it settles at once or in its own time, its own result is the outcome, at
    the time it comes.  It times out exactly otherwise, at its deadline, or at its start if the
    deadline has passed by then.
   */
  lemma {:induction false} SlotFacts(tail: Option<int>, subs: seq<Submission>, k: nat)
    requires k < |subs|
    ensures var s, slot := subs[k], Schedule(tail, subs)[k];
      && slot.start == (if TailAt(tail, subs, k).Some? && TailAt(tail, subs, k).value > s.enqueued
                        then TailAt(tail, subs, k).value else s.enqueued)
      && (slot.outcome == TimedOut <==> !InOwnTime(s, slot.start))
      && (slot.outcome == Rejected <==> InOwnTime(s, slot.start) && s.operation.rejects)
      && (slot.outcome == Resolved <==> InOwnTime(s, slot.start) && !s.operation.rejects)
      && (InOwnTime(s, slot.start) ==> slot.settled == slot.start + s.operation.duration.value)
      && (!InOwnTime(s, slot.start) && slot.start <= s.enqueued + s.timeout ==> slot.settled == s.enqueued + s.timeout)
      && (!InOwnTime(s, slot.start) && slot.start > s.enqueued + s.timeout ==> slot.settled == slot.start)
  {
    SlotAt(tail, subs, k);
  }

  /** On an idle queue an operation that takes less than its timeout ends when it ends, with its own result. */
  lemma {:induction false} IdleQueueIsFair(s: Submission)
    requires s.operation.duration.Some? && s.operation.duration.value < s.timeout
    ensures Schedule(None, [s])[0]
         == Slot(s.enqueued, s.enqueued + s.operation.duration.value, if s.operation.rejects then Rejected else Resolved)
  {
    SlotFacts(None, [s], 0);
  }

  /** Five minutes for initialisation, half a minute for everything else, five seconds for legacy callers. */
  lemma DefaultTimeouts(kind: Kind)
    ensures DefaultTimeout(kind) == if kind == Init then 5 * 60 * 1000 else 30 * 1000
    ensures LEGACY_TIMEOUT_MS == 5 * 1000
  {
  }

  /** The operation is still running at time `t`, abandoned or not. */
  predicate RunningAt(s: Submission, slot: Slot, t: int) {
    slot.start <= t && (s.operation.duration.None? || t < slot.start + s.operation.duration.value)
  }

  /** Two operations of a kind run at once only if the earlier one was abandoned by its timer. */
  lemma {:induction false} OverlapOnlyAfterTimeout(tail: Option<int>, subs: seq<Submission>, i: nat, j: nat, t: int)
    requires i < j < |subs|
    requires var slots := Schedule(tail, subs);
      RunningAt(subs[i], slots[i], t) && RunningAt(subs[j], slots[j], t)
    ensures Schedule(tail, subs)[i].outcome == TimedOut
  {
    SlotAt(tail, subs, i);
    StartsInOrder(tail, subs, i, j);
  }

  function WithoutRejections(subs: seq<Submission>): (r: seq<Submission>)
    ensures |r| == |subs|
  {
    seq(|subs|, i requires 0 <= i < |subs| => subs[i].(operation := subs[i].operation.(rejects := false)))
  }

  /** Rejections change nothing but their own outcome: all times are as if nothing had been rejected. */
  lemma {:induction false} RejectionsDoNotMatter(tail: Option<int>, subs: seq<Submission>, k: nat)
    requires k < |subs|
    ensures var a, b := Schedule(tail, subs)[k], Schedule(tail, WithoutRejections(subs))[k];
      a.start == b.start && a.settled == b.settled && (a.outcome == TimedOut <==> b.outcome == TimedOut)
    decreases |subs|
  {
    if k > 0 {
      var slot := SlotFrom(subs[0], StartOf(tail, subs[0]));
      RejectionsDoNotMatter(Some(slot.settled), subs[1..], k - 1);
      assert WithoutRejections(subs)[1..] == WithoutRejections(subs[1..]);
    }
  }

  // ---------- Bounds ----------

  /** The latest deadline among the first `k + 1` submissions, and the tail before them. */
  function LatestDeadline(tail: Option<int>, subs: seq<Submission>, k: nat): int
    requires k < |subs|
  {
    var before := if k == 0 then tail else Some(LatestDeadline(tail, subs, k - 1));
    if before.Some? && before.value > Deadline(subs[k]) then before.value else Deadline(subs[k])
  }

  /**
    However many earlier operations hang, an operation settles no later than the latest deadline
    among it and its predecessors; operations that settle at once may only be held up by those.
   */
  lemma {:induction false} SettlesByLatestDeadline(tail: Option<int>, subs: seq<Submission>, k: nat)
    requires k < |subs|
    ensures Schedule(tail, subs)[k].settled <= LatestDeadline(tail, subs, k)
  {
    SlotAt(tail, subs, k);
    if k > 0 {
      SettlesByLatestDeadline(tail, subs, k - 1);
    }
  }

  /** The bound is sharp: when every operation hangs, each settles exactly at it. */
  lemma {:induction false} HangingMeetsBound(tail: Option<int>, subs: seq<Submission>, k: nat)
    requires k < |subs| && forall i :: 0 <= i < |subs| ==> subs[i].operation.duration.None?
    ensures Schedule(tail, subs)[k].settled == LatestDeadline(tail, subs, k)
  {
    SlotAt(tail, subs, k);
    if k > 0 {
      HangingMeetsBound(tail, subs, k - 1);
    }
  }

  /** With one timeout for the kind, every operation settles within that timeout of its own enqueueing. */
  lemma {:induction false} SettlesInOwnTime(subs: seq<Submission>, timeout: nat, k: nat)
    requires InTime(subs) && k < |subs| && forall i :: 0 <= i < |subs| ==> subs[i].timeout == timeout
    ensures Schedule(None, subs)[k].settled <= subs[k].enqueued + timeout
  {
    SettlesByLatestDeadline(None, subs, k);
    LatestIsOwn(subs, timeout, k);
  }

  lemma {:induction false} LatestIsOwn(subs: seq<Submission>, timeout: nat, k: nat)
    requires InTime(subs) && k < |subs| && forall i :: 0 <= i < |subs| ==> subs[i].timeout == timeout
    ensures LatestDeadline(None, subs, k) == subs[k].enqueued + timeout
  {
    if k > 0 {
      LatestIsOwn(subs, timeout, k - 1);
      assert subs[k - 1].enqueued <= subs[k].enqueued;
    }
  }

  /** The same submissions but for the operations themselves. */
  ghost predicate SameTimes(subs: seq<Submission>, others: seq<Submission>) {
    |others| == |subs| && forall i :: 0 <= i < |subs| ==> others[i] == subs[i].(operation := others[i].operation)
  }

  function AllHanging(subs: seq<Submission>): (r: seq<Submission>)
    ensures |r| == |subs|
  {
    seq(|subs|, i requires 0 <= i < |subs| => subs[i].(operation := Operation(None, false)))
  }

  lemma {:induction false} SameLatestDeadline(tail: Option<int>, subs: seq<Submission>, others: seq<Submission>, k: nat)
    requires SameTimes(subs, others) && k < |subs|
    ensures LatestDeadline(tail, others, k) == LatestDeadline(tail, subs, k)
  {
    if k > 0 {
      SameLatestDeadline(tail, subs, others, k - 1);
    }
  }

  /**
    What a caller can tell from enqueue times and timeouts alone: an operation is sure to settle
    within its own deadline, whatever the operations do, exactly when no earlier one of its kind,
    nor the tail before them, has a later deadline.  Given the operations, it does so exactly when
    its predecessor has settled by then.
   */
  lemma {:induction false} OwnDeadlineIff(tail: Option<int>, subs: seq<Submission>, k: nat)
    requires k < |subs|
    ensures (forall others: seq<Submission> | SameTimes(subs, others) ::
              Schedule(tail, others)[k].settled <= Deadline(subs[k]))
        <==> LatestDeadline(tail, subs, k) <= Deadline(subs[k])
    ensures Schedule(tail, subs)[k].settled <= Deadline(subs[k])
        <==> (TailAt(tail, subs, k).None? || TailAt(tail, subs, k).value <= Deadline(subs[k]))
  {
    SlotAt(tail, subs, k);
    var hanging := AllHanging(subs);
    assert SameTimes(subs, hanging);
    HangingMeetsBound(tail, hanging, k);
    SameLatestDeadline(tail, subs, hanging, k);
    forall others: seq<Submission> | SameTimes(subs, others)
      ensures Schedule(tail, others)[k].settled <= LatestDeadline(tail, subs, k)
    {
      SettlesByLatestDeadline(tail, others, k);
      SameLatestDeadline(tail, subs, others, k);
    }
  }

  /** A legacy operation behind a hanging reload misses its five seconds and settles after thirty. */
  lemma LegacyHeldUpByReload()
    ensures var subs := [Submission(Reload, 0, TIMEOUT_MS, Operation(None, false)),
                         Submission(Reload, 0, LEGACY_TIMEOUT_MS, Operation(Some(1), false))];
      Schedule(None, subs)[1] == Slot(TIMEOUT_MS, TIMEOUT_MS, TimedOut)
  {
    var subs := [Submission(Reload, 0, TIMEOUT_MS, Operation(None, false)),
                 Submission(Reload, 0, LEGACY_TIMEOUT_MS, Operation(Some(1), false))];
    SlotAt(None, subs, 0);
    SlotAt(None, subs, 1);
  }

  // ---------- The queues ----------

  class LifecycleQueues {
    /** When the tail of each kind settles; a kind without entry has a settled tail. */
    var tails: Tails

    constructor ()
      ensures tails == map[]
    {
      tails := map[];
    }

    /** Enqueues at time `now`; tells when the operation will start and settle, and how. */
    method Enqueue(kind: Kind, operation: Operation, timeout: nat, now: int) returns (slot: Slot)
      modifies this
      ensures slot == SlotFrom(Submission(kind, now, timeout, operation),
                               StartOf(TailOf(old(tails), kind), Submission(kind, now, timeout, operation)))
      ensures tails == old(tails)[kind := slot.settled]
    {
      var deadline := now + timeout;
      var start := now;
      if kind in tails && tails[kind] > now {
        start := tails[kind];
      }
      var d := operation.duration;
      if d.Some? && (d.value == 0 || start + d.value < deadline) {
        slot := Slot(start, start + d.value, if operation.rejects then Rejected else Resolved);
      } else {
        slot := Slot(start, if start > deadline then start else deadline, TimedOut);
      }
      tails := tails[kind := slot.settled];
    }

    /** The entry point that is kept for callers without a kind: the reload queue, with five seconds. */
    method EnqueueLegacy(operation: Operation, now: int) returns (slot: Slot)
      modifies this
      ensures slot == SlotFrom(Submission(Reload, now, LEGACY_TIMEOUT_MS, operation),
                               StartOf(TailOf(old(tails), Reload), Submission(Reload, now, LEGACY_TIMEOUT_MS, operation)))
      ensures tails == old(tails)[Reload := slot.settled]
    {
      slot := Enqueue(Reload, operation, LEGACY_TIMEOUT_MS, now);
    }

    /** Enqueues with the timeout of the kind. */
    method EnqueueByKind(kind: Kind, operation: Operation, now: int) returns (slot: Slot)
      modifies this
      ensures slot == SlotFrom(Submission(kind, now, DefaultTimeout(kind), operation),
                               StartOf(TailOf(old(tails), kind), Submission(kind, now, DefaultTimeout(kind), operation)))
      ensures tails == old(tails)[kind := slot.settled]
    {
      slot := Enqueue(kind, operation, DefaultTimeout(kind), now);
    }
  }
}
