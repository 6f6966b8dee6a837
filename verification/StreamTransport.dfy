/**
  The batching event stream of electron/main/pi-stream-transport.ts: events are buffered for a
  short time and posted in batches to the port that is attached when the batch is flushed.
 */
module StreamTransport {
  import opened Common

  const MAX_BUFFERED: nat := 4096

  /** A batch taken from the buffer: where it was posted, or `None` when it was lost. */
  datatype Batch = Batch(events: seq<string>, port: Option<nat>)
  /** `batches` and `accepted` are history: what left the buffer, and what entered it. */
  datatype State = State(
    port: Option<nat>, buffered: seq<string>, timer: bool, batches: seq<Batch>, accepted: seq<string>)

  datatype Op =
    | Attach(alive: bool, newPort: nat, transferred: bool)
    | Publish(payload: string, posted: bool)
    | Flush(posted: bool)
    | TimerFires(posted: bool)
    | PortClosed(port: nat)
    | Close

  const IDLE: State := State(None, [], false, [], [])

  // ---------- Operations ----------

  /** Posts the buffer; an attached port that cannot be posted to is given up. */
  function Flushed(s: State, posted: bool): State {
    if s.buffered == [] then s.(timer := false)
    else
      s.(timer := false, buffered := [],
         port := if posted then s.port else None,
         batches := s.batches + [Batch(s.buffered, if posted then s.port else None)])
  }

  function Step(s: State, op: Op): State {
    match op
    case Attach(alive, newPort, transferred) =>
      if !alive then s else s.(port := if transferred then Some(newPort) else None)
    case Publish(payload, posted) =>
      if s.port.None? then s
      else
        var t := s.(buffered := s.buffered + [payload], accepted := s.accepted + [payload]);
        if |t.buffered| >= MAX_BUFFERED then Flushed(t, posted) else t.(timer := true)
    case Flush(posted) => Flushed(s, posted)
    case TimerFires(posted) => if s.timer then Flushed(s, posted) else s
    case PortClosed(port) => if s.port == Some(port) then s.(port := None) else s
    case Close =>
      s.(port := None, timer := false, buffered := [],
         batches := if s.buffered == [] then s.batches else s.batches + [Batch(s.buffered, None)])
  }

  function Run(s: State, ops: seq<Op>): State
    decreases |ops|
  {
    if ops == [] then s else Run(Step(s, ops[0]), ops[1..])
  }

  // ---------- Conservation ----------

  function Events(batches: seq<Batch>): seq<string> {
    if batches == [] then [] else Events(batches[..|batches| - 1]) + batches[|batches| - 1].events
  }

  /**
    The timer is armed exactly when something is buffered, the buffer stays below its limit, and
    every accepted event is in a batch or in the buffer, once and in order.
   */
  ghost predicate Valid(s: State) {
    && (s.timer <==> s.buffered != [])
    && |s.buffered| < MAX_BUFFERED
    && Accounted(s)
  }

  ghost predicate Accounted(s: State) {
    && Events(s.batches) + s.buffered == s.accepted
    && (forall k :: 0 <= k < |s.batches| ==> 0 < |s.batches[k].events| <= MAX_BUFFERED)
  }

  /** Taking the buffer out as a batch keeps the account. */
  lemma {:induction false} BatchKeepsAccount(s: State, t: State, port: Option<nat>)
    requires Accounted(s) && 0 < |s.buffered| <= MAX_BUFFERED
    requires t.batches == s.batches + [Batch(s.buffered, port)] && t.buffered == [] && t.accepted == s.accepted
    ensures Accounted(t)
  {
    var n := |s.batches|;
    assert t.batches[..n] == s.batches && t.batches[n].events == s.buffered;
    assert Events(t.batches) == Events(s.batches) + s.buffered;
  }

  lemma {:induction false} FlushKeepsValid(s: State, posted: bool)
    requires Accounted(s) && |s.buffered| <= MAX_BUFFERED
    ensures Valid(Flushed(s, posted))
  {
    if s.buffered != [] {
      BatchKeepsAccount(s, Flushed(s, posted), if posted then s.port else None);
    }
  }

  lemma {:induction false} PublishKeepsValid(s: State, payload: string, posted: bool)
    requires Valid(s)
    ensures Valid(Step(s, Publish(payload, posted)))
  {
    if s.port.Some? {
      var t := s.(buffered := s.buffered + [payload], accepted := s.accepted + [payload]);
      assert Events(t.batches) + t.buffered == t.accepted;
      if |t.buffered| >= MAX_BUFFERED {
        FlushKeepsValid(t, posted);
      }
    }
  }

  lemma {:induction false} StepKeepsValid(s: State, op: Op)
    requires Valid(s)
    ensures Valid(Step(s, op))
  {
    match op
    case Attach(_, _, _) =>
    case Publish(payload, posted) => PublishKeepsValid(s, payload, posted);
    case Flush(posted) => FlushKeepsValid(s, posted);
    case TimerFires(posted) => FlushKeepsValid(s, posted);
    case PortClosed(_) =>
    case Close => if s.buffered != [] { BatchKeepsAccount(s, Step(s, op), None); }
  }

  lemma {:induction false} RunKeepsValid(s: State, ops: seq<Op>)
    requires Valid(s)
    ensures Valid(Run(s, ops))
    decreases |ops|
  {
    if ops != [] {
      StepKeepsValid(s, ops[0]);
      RunKeepsValid(Step(s, ops[0]), ops[1..]);
    }
  }

  // ---------- Nothing is lost while a port stays attached ----------

  /** The step neither detaches the current port nor finds that posting fails. */
  predicate Smooth(s: State, op: Op) {
    match op
    case Attach(alive, _, transferred) => alive ==> transferred
    case Publish(_, posted) => posted
    case Flush(posted) => posted
    case TimerFires(posted) => posted
    case PortClosed(port) => s.port != Some(port)
    case Close => false
  }

  predicate SmoothRun(s: State, ops: seq<Op>)
    decreases |ops|
  {
    ops == [] || (Smooth(s, ops[0]) && SmoothRun(Step(s, ops[0]), ops[1..]))
  }

  function Published(ops: seq<Op>): seq<string> {
    if ops == [] then [] else (if ops[0].Publish? then [ops[0].payload] else []) + Published(ops[1..])
  }

  ghost predicate NoneLost(batches: seq<Batch>) {
    forall k :: 0 <= k < |batches| ==> batches[k].port.Some?
  }

  lemma {:induction false} SmoothLosesNothing(s: State, ops: seq<Op>)
    requires s.port.Some? && SmoothRun(s, ops) && NoneLost(s.batches)
    ensures var t := Run(s, ops);
      t.port.Some? && NoneLost(t.batches) && t.accepted == s.accepted + Published(ops)
    decreases |ops|
  {
    if ops != [] {
      SmoothLosesNothing(Step(s, ops[0]), ops[1..]);
      assert Step(s, ops[0]).accepted == s.accepted + (if ops[0].Publish? then [ops[0].payload] else []);
    }
  }

  /**
    While a port stays attached and posting succeeds, over replacements of the port, what was
    posted followed by what is buffered is everything published, in order.
   */
  lemma {:induction false} DeliveredInOrder(port: nat, ops: seq<Op>)
    requires SmoothRun(IDLE.(port := Some(port)), ops)
    ensures var t := Run(IDLE.(port := Some(port)), ops);
      NoneLost(t.batches) && Events(t.batches) + t.buffered == Published(ops)
  {
    var s := IDLE.(port := Some(port));
    SmoothLosesNothing(s, ops);
    RunKeepsValid(s, ops);
  }

  /** A batch is lost exactly when the transport is closed over it, or flushed without a port to take it. */
  lemma {:induction false} LostIff(s: State, op: Op)
    requires Valid(s)
    ensures (exists b :: Step(s, op).batches == s.batches + [b] && b.port.None?)
        <==> || (op.Close? && s.buffered != [])
             || ((op.Flush? || op.TimerFires?) && s.buffered != [] && (s.port.None? || !op.posted))
             || (op.Publish? && s.port.Some? && |s.buffered| + 1 == MAX_BUFFERED && !op.posted)
  {
    var n := |s.batches|;
    var t := Step(s, op);
    if |t.batches| == n + 1 {
      assert t.batches == s.batches + [t.batches[n]];
    }
  }

  /** The late close of a port that has been replaced changes nothing. */
  lemma {:induction false} LateCloseIsHarmless(s: State, old': nat, ops: seq<Op>)
    requires s.port != Some(old') && forall k :: 0 <= k < |ops| ==> ops[k].Attach? ==> ops[k].newPort != old'
    ensures Step(Run(s, ops), PortClosed(old')) == Run(s, ops)
    decreases |ops|
  {
    if ops != [] {
      LateCloseIsHarmless(Step(s, ops[0]), old', ops[1..]);
    }
  }

  // ---------- Which port ----------

  /** The step posts the buffer, and posting fails. */
  predicate PostFails(s: State, op: Op) {
    match op
    case Publish(_, posted) => !posted && s.port.Some? && |s.buffered| + 1 >= 4096
    case Flush(posted) => !posted && s.buffered != []
    case TimerFires(posted) => !posted && s.buffered != [] && s.timer
    case _ => false
  }

  /**
    A port is attached exactly by an attach to a living window whose transfer succeeds.  It is given
    up by a failed transfer, its own close, the closing of the transport and a failed post, and by
    nothing else.
   */
  lemma {:induction false} PortChangesIff(s: State, op: Op)
    ensures op.Attach? && op.alive && op.transferred ==> Step(s, op).port == Some(op.newPort)
    ensures var givenUp := (op.Attach? && op.alive && !op.transferred) || (op.PortClosed? && s.port == Some(op.port))
                           || op.Close? || PostFails(s, op);
      && (givenUp ==> Step(s, op).port.None?)
      && (!givenUp && !(op.Attach? && op.alive) ==> Step(s, op).port == s.port)
  {
  }

  /** A batch is the whole buffer, with the event just published; it goes to the port there is, if posting succeeds. */
  lemma {:induction false} BatchGoesToPort(s: State, op: Op, b: Batch)
    requires Step(s, op).batches == s.batches + [b]
    ensures b.events == s.buffered + (if op.Publish? then [op.payload] else [])
    ensures b.port == if op.Close? || PostFails(s, op) then None else s.port
  {
    assert (s.batches + [b])[|s.batches|] == b;
    assert s.buffered + [] == s.buffered;
    assert |Step(s, op).batches| == |s.batches| + 1;
  }

  /** The port of the last attach to a living window. */
  function LastAttached(ops: seq<Op>): Option<nat> {
    if ops == [] then None
    else
      var op := ops[|ops| - 1];
      if op.Attach? && op.alive then Some(op.newPort) else LastAttached(ops[..|ops| - 1])
  }

  lemma {:induction false} RunSnoc(s: State, ops: seq<Op>, op: Op)
    ensures Run(s, ops + [op]) == Step(Run(s, ops), op)
    decreases |ops|
  {
    if ops == [] {
      assert [] + [op] == [op] && [op][1..] == [];
    } else {
      assert (ops + [op])[1..] == ops[1..] + [op];
      RunSnoc(Step(s, ops[0]), ops[1..], op);
    }
  }

  /** Over every run, the port there is, to which every posted batch goes, is the one last attached. */
  lemma {:induction false} PortIsLastAttached(s: State, ops: seq<Op>)
    requires s.port.None?
    ensures Run(s, ops).port.Some? ==> Run(s, ops).port == LastAttached(ops)
    decreases |ops|
  {
    if ops != [] {
      var n := |ops| - 1;
      assert ops == ops[..n] + [ops[n]];
      RunSnoc(s, ops[..n], ops[n]);
      PortIsLastAttached(s, ops[..n]);
      PortChangesIff(Run(s, ops[..n]), ops[n]);
    }
  }

  /** The buffer is flushed by the event that makes it 4096, and not before. */
  lemma {:induction false} FullBufferIsPosted(s: State, payload: string, posted: bool)
    requires s.port.Some?
    ensures var t := Step(s, Publish(payload, posted));
      && (|s.buffered| >= 4095 ==> t.buffered == [] && !t.timer && |t.batches| == |s.batches| + 1)
      && (|s.buffered| < 4095 ==> t.buffered == s.buffered + [payload] && t.timer && t.batches == s.batches)
  {
  }

  // ---------- The transport ----------

  class Transport {
    var port: Option<nat>
    var buffered: seq<string>
    var timer: bool
    ghost var batches: seq<Batch>
    ghost var accepted: seq<string>

    ghost function Now(): State
      reads this
    {
      State(port, buffered, timer, batches, accepted)
    }

    constructor ()
      ensures Now() == IDLE && Valid(Now())
    {
      port, buffered, timer, batches, accepted := None, [], false, [], [];
    }

    method AttachPort(alive: bool, newPort: nat, transferred: bool) returns (attached: bool)
      modifies this
      ensures Now() == Step(old(Now()), Attach(alive, newPort, transferred))
      ensures attached <==> alive && transferred
    {
      if !alive {
        return false;
      }
      port := Some(newPort);
      if !transferred {
        port := None;
        return false;
      }
      attached := true;
    }

    method Post(events: seq<string>, posted: bool)
      requires events != []
      modifies this`port, this`batches
      ensures port == if posted then old(port) else None
      ensures batches == old(batches) + [Batch(events, if posted then old(port) else None)]
    {
      batches := batches + [Batch(events, if posted then port else None)];
      if port.Some? && !posted {
        port := None;
      }
    }

    method FlushBuffer(posted: bool)
      modifies this
      ensures Now() == Flushed(old(Now()), posted)
    {
      timer := false;
      if buffered == [] {
        return;
      }
      var events := buffered;
      buffered := [];
      Post(events, posted);
    }

    method PublishEvent(payload: string, posted: bool)
      modifies this
      ensures Now() == Step(old(Now()), Publish(payload, posted))
    {
      if port.None? {
        return;
      }
      buffered := buffered + [payload];
      accepted := accepted + [payload];
      if |buffered| >= MAX_BUFFERED {
        FlushBuffer(posted);
        return;
      }
      timer := true;
    }

    method OnPortClosed(closed: nat)
      modifies this
      ensures Now() == Step(old(Now()), PortClosed(closed))
    {
      if port == Some(closed) {
        port := None;
      }
    }

    method CloseTransport()
      modifies this
      ensures Now() == Step(old(Now()), Close)
    {
      timer := false;
      if buffered != [] {
        batches := batches + [Batch(buffered, None)];
      }
      buffered := [];
      port := None;
    }
  }
}
