/**
  The per-session message queues of src/stores/message-queue-store.ts and their mirror in durable
  storage.  Every mutation writes the whole queue of its session; a write may be lost.
 */
module MessageQueue {
  import opened Common

  datatype Item = Item(id: string, text: string, paused: bool, createdAt: int)
  type Queues = map<string, seq<Item>>
  datatype State = State(queues: Queues, disk: Queues)

  datatype Change =
    | Enqueue(item: Item)
    | Edit(id: string, text: string)
    | Remove(id: string)
    | Reorder(from: int, to: int)
    | SetPaused(id: string, paused: bool)
    | ShiftNext
    | Clear
  /** A change to the queue of one session; `stored` tells whether its write arrives. */
  datatype Op = Op(sessionId: string, change: Change, stored: bool)

  // ---------- Changes to one queue ----------

  predicate Has(q: seq<Item>, id: string) {
    exists i :: 0 <= i < |q| && q[i].id == id
  }

  function WithText(q: seq<Item>, id: string, text: string): (r: seq<Item>)
    ensures |r| == |q|
  {
    seq(|q|, i requires 0 <= i < |q| => if q[i].id == id then q[i].(text := text) else q[i])
  }

  function WithPaused(q: seq<Item>, id: string, paused: bool): (r: seq<Item>)
    ensures |r| == |q|
  {
    seq(|q|, i requires 0 <= i < |q| => if q[i].id == id then q[i].(paused := paused) else q[i])
  }

  function Without(q: seq<Item>, id: string): seq<Item> {
    if q == [] then [] else if q[0].id == id then Without(q[1..], id) else [q[0]] + Without(q[1..], id)
  }

  function Taken(q: seq<Item>, i: nat): seq<Item>
    requires i < |q|
  {
    q[..i] + q[i + 1..]
  }

  function Clamped(to: int, q: seq<Item>): nat
    requires q != []
  {
    if to > |q| - 1 then |q| - 1 else if to < 0 then 0 else to
  }

  function Moved(q: seq<Item>, from: nat, to: nat): (r: seq<Item>)
    requires from < |q| && to < |q|
    ensures |r| == |q|
  {
    var rest := Taken(q, from);
    rest[..to] + [q[from]] + rest[to..]
  }

  /** The index of the first item that is not paused, or the length. */
  function FirstActive(q: seq<Item>): (i: nat)
    ensures i <= |q|
    ensures i < |q| ==> !q[i].paused
    ensures forall j :: 0 <= j < i ==> q[j].paused
  {
    if q == [] || !q[0].paused then 0 else 1 + FirstActive(q[1..])
  }

  /** The queue after a change, or `None` when the change does not apply and nothing is written. */
  function Changed(q: seq<Item>, change: Change): Option<seq<Item>> {
    match change
    case Enqueue(item) => Some(q + [item])
    case Edit(id, text) => if Has(q, id) then Some(WithText(q, id, text)) else None
    case Remove(id) => if Has(q, id) then Some(Without(q, id)) else None
    case Reorder(from, to) =>
      if from < 0 || from >= |q| || from == Clamped(to, q) then None else Some(Moved(q, from, Clamped(to, q)))
    case SetPaused(id, paused) => if Has(q, id) then Some(WithPaused(q, id, paused)) else None
    case ShiftNext => if FirstActive(q) == |q| then None else Some(Taken(q, FirstActive(q)))
    case Clear => if q == [] then None else Some([])
  }

  // ---------- The store and its mirror ----------

  function QueueOf(queues: Queues, sessionId: string): seq<Item> {
    if sessionId in queues then queues[sessionId] else []
  }

  /** No entry is kept for an empty queue. */
  function Put(queues: Queues, sessionId: string, q: seq<Item>): Queues {
    if q == [] then queues - {sessionId} else queues[sessionId := q]
  }

  function Step(s: State, op: Op): State {
    var next := Changed(QueueOf(s.queues, op.sessionId), op.change);
    if next.None? then s
    else
      State(Put(s.queues, op.sessionId, next.value),
            if op.stored then Put(s.disk, op.sessionId, next.value) else s.disk)
  }

  function Run(s: State, ops: seq<Op>): State
    decreases |ops|
  {
    if ops == [] then s else Run(Step(s, ops[0]), ops[1..])
  }

  ghost predicate NoEmpty(queues: Queues) {
    forall id :: id in queues ==> queues[id] != []
  }

  predicate Synced(s: State, sessionId: string) {
    QueueOf(s.disk, sessionId) == QueueOf(s.queues, sessionId)
  }

  /** The last write for the session was lost; at first, `before` tells. */
  predicate Behind(s: State, ops: seq<Op>, sessionId: string, before: bool)
    decreases |ops|
  {
    if ops == [] then before
    else
      var wrote := ops[0].sessionId == sessionId && Changed(QueueOf(s.queues, sessionId), ops[0].change).Some?;
      Behind(Step(s, ops[0]), ops[1..], sessionId, if wrote then !ops[0].stored else before)
  }

  lemma {:induction false} StepKeepsNoEmpty(s: State, op: Op)
    requires NoEmpty(s.queues) && NoEmpty(s.disk)
    ensures NoEmpty(Step(s, op).queues) && NoEmpty(Step(s, op).disk)
  {
  }

  /** After any run a session is mirrored, unless the last write for it was lost. */
  lemma {:induction false} MirroredUnlessBehind(s: State, ops: seq<Op>, sessionId: string, before: bool)
    requires Synced(s, sessionId) || before
    ensures Synced(Run(s, ops), sessionId) || Behind(s, ops, sessionId, before)
    decreases |ops|
  {
    if ops != [] {
      var wrote := ops[0].sessionId == sessionId && Changed(QueueOf(s.queues, sessionId), ops[0].change).Some?;
      MirroredUnlessBehind(Step(s, ops[0]), ops[1..], sessionId, if wrote then !ops[0].stored else before);
    }
  }

  lemma {:induction false} RunKeepsNoEmpty(s: State, ops: seq<Op>)
    requires NoEmpty(s.queues) && NoEmpty(s.disk)
    ensures NoEmpty(Run(s, ops).queues) && NoEmpty(Run(s, ops).disk)
    decreases |ops|
  {
    if ops != [] {
      StepKeepsNoEmpty(s, ops[0]);
      RunKeepsNoEmpty(Step(s, ops[0]), ops[1..]);
    }
  }

  lemma {:induction false} NeverBehind(s: State, ops: seq<Op>, sessionId: string)
    requires forall k :: 0 <= k < |ops| ==> ops[k].stored
    ensures !Behind(s, ops, sessionId, false)
    decreases |ops|
  {
    if ops != [] {
      NeverBehind(Step(s, ops[0]), ops[1..], sessionId);
    }
  }

  /** When all writes arrive, the stored queues equal the queues in memory after every run, and none is empty. */
  lemma {:induction false} MirrorIsExact(s: State, ops: seq<Op>)
    requires s.disk == s.queues && NoEmpty(s.queues) && forall k :: 0 <= k < |ops| ==> ops[k].stored
    ensures Run(s, ops).disk == Run(s, ops).queues && NoEmpty(Run(s, ops).queues)
  {
    var t := Run(s, ops);
    RunKeepsNoEmpty(s, ops);
    forall id ensures QueueOf(t.disk, id) == QueueOf(t.queues, id) {
      MirroredUnlessBehind(s, ops, id, false);
      NeverBehind(s, ops, id);
    }
    forall id ensures id in t.disk <==> id in t.queues {
      assert QueueOf(t.disk, id) == QueueOf(t.queues, id);
    }
    forall id | id in t.disk ensures t.disk[id] == t.queues[id] {
      assert QueueOf(t.disk, id) == QueueOf(t.queues, id);
    }
  }

  // ---------- Hydration ----------

  /** The stored queues win over those in memory; empty ones are skipped. */
  function Hydrated(queues: Queues, listed: Queues): Queues {
    queues + map id | id in listed && listed[id] != [] :: listed[id]
  }

  /** A restart after any run restores every queue. */
  lemma {:induction false} RestartRestores(ops: seq<Op>)
    requires forall k :: 0 <= k < |ops| ==> ops[k].stored
    ensures var t := Run(State(map[], map[]), ops); Hydrated(map[], t.disk) == t.queues
  {
    MirrorIsExact(State(map[], map[]), ops);
    RunKeepsNoEmpty(State(map[], map[]), ops);
  }

  /**
    Hydrating from a listing taken earlier keeps the mirror exact exactly when no listed queue
    was changed in between.
   */
  lemma {:induction false} LateHydrationIff(s: State, listed: Queues)
    requires s.disk == s.queues
    ensures s.disk == Hydrated(s.queues, listed)
        <==> forall id :: id in listed && listed[id] != [] ==> id in s.queues && s.queues[id] == listed[id]
  {
    var h := Hydrated(s.queues, listed);
    if forall id :: id in listed && listed[id] != [] ==> id in s.queues && s.queues[id] == listed[id] {
      assert h == s.queues;
    } else {
      var id :| id in listed && listed[id] != [] && !(id in s.queues && s.queues[id] == listed[id]);
      assert id in h && h[id] == listed[id];
    }
  }

  // ---------- Taking and moving items ----------

  function Active(q: seq<Item>): seq<Item> {
    if q == [] then [] else (if q[0].paused then [] else [q[0]]) + Active(q[1..])
  }

  function Paused(q: seq<Item>): seq<Item> {
    if q == [] then [] else (if q[0].paused then [q[0]] else []) + Paused(q[1..])
  }

  /** Takes the next active item again and again: what came out, and what is left. */
  function Drained(q: seq<Item>): (seq<Item>, seq<Item>)
    decreases |q|
  {
    var i := FirstActive(q);
    if i == |q| then ([], q)
    else var (items, left) := Drained(Taken(q, i)); ([q[i]] + items, left)
  }

  lemma {:induction false} ActiveCons(h: Item, t: seq<Item>)
    ensures Active([h] + t) == (if h.paused then [] else [h]) + Active(t)
    ensures Paused([h] + t) == (if h.paused then [h] else []) + Paused(t)
  {
    assert ([h] + t)[1..] == t;
  }

  /** Paused items in front only stay in front of the paused ones. */
  lemma {:induction false} PausedPrefix(front: seq<Item>, t: seq<Item>)
    requires forall i :: 0 <= i < |front| ==> front[i].paused
    ensures Active(front + t) == Active(t) && Paused(front + t) == front + Paused(t)
  {
    if front == [] {
      assert front + t == t;
    } else {
      var h, rest := front[0], front[1..];
      assert front + t == [h] + (rest + t);
      ActiveCons(h, rest + t);
      PausedPrefix(rest, t);
    }
  }

  lemma {:induction false} NoneActive(q: seq<Item>)
    requires FirstActive(q) == |q|
    ensures Active(q) == [] && Paused(q) == q
  {
    PausedPrefix(q, []);
    assert q + [] == q;
  }

  lemma {:induction false} ActiveTaken(q: seq<Item>)
    requires FirstActive(q) < |q|
    ensures Active(q) == [q[FirstActive(q)]] + Active(Taken(q, FirstActive(q)))
    ensures Paused(q) == Paused(Taken(q, FirstActive(q)))
  {
    var i := FirstActive(q);
    var front, x, t := q[..i], q[i], q[i + 1..];
    assert q == front + ([x] + t);
    PausedPrefix(front, [x] + t);
    ActiveCons(x, t);
    PausedPrefix(front, t);
  }

  /** Draining yields the active items in their order and leaves the paused ones in theirs. */
  lemma {:induction false} DrainedIsActive(q: seq<Item>)
    ensures Drained(q) == (Active(q), Paused(q))
    decreases |q|
  {
    if FirstActive(q) == |q| {
      NoneActive(q);
    } else {
      ActiveTaken(q);
      DrainedIsActive(Taken(q, FirstActive(q)));
    }
  }

  /** A moved item lands at its target, the others keep their order, and moving it back undoes it. */
  lemma {:induction false} MovedMeaning(q: seq<Item>, from: nat, to: nat)
    requires from < |q| && to < |q|
    ensures var r := Moved(q, from, to);
      && r[to] == q[from] && Taken(r, to) == Taken(q, from)
      && Moved(r, to, from) == q && multiset(r) == multiset(q)
  {
    var r, rest := Moved(q, from, to), Taken(q, from);
    assert Taken(r, to) == rest by {
      assert r[..to] == rest[..to] && r[to + 1..] == rest[to..];
    }
    assert rest[..from] == q[..from] && rest[from..] == q[from + 1..];
    assert q == q[..from] + [q[from]] + q[from + 1..];
    assert rest == rest[..to] + rest[to..];
    assert multiset(r) == multiset(rest) + multiset{q[from]};
  }

  // ---------- What each change leaves ----------

  /** An item queued comes last. */
  lemma {:induction false} EnqueuedLast(q: seq<Item>, item: Item)
    ensures Changed(q, Enqueue(item)).Some?
    ensures var r := Changed(q, Enqueue(item)).value;
      |r| == |q| + 1 && r[|q|] == item && forall i :: 0 <= i < |q| ==> r[i] == q[i]
  {
  }

  /** Only queueing and taking. */
  predicate QueuesOrTakes(change: Change) {
    (change.Enqueue? && !change.item.paused) || change.ShiftNext?
  }

  function Next(q: seq<Item>, change: Change): seq<Item> {
    if Changed(q, change).Some? then Changed(q, change).value else q
  }

  function AfterAll(q: seq<Item>, changes: seq<Change>): seq<Item>
    decreases |changes|
  {
    if changes == [] then q else AfterAll(Next(q, changes[0]), changes[1..])
  }

  function Out(q: seq<Item>, change: Change): seq<Item> {
    if change.ShiftNext? && FirstActive(q) < |q| then [q[FirstActive(q)]] else []
  }

  function In(change: Change): seq<Item> {
    if change.Enqueue? then [change.item] else []
  }

  /** What is taken in a run of changes, and what is queued in it. */
  function TakenOut(q: seq<Item>, changes: seq<Change>): seq<Item>
    decreases |changes|
  {
    if changes == [] then [] else Out(q, changes[0]) + TakenOut(Next(q, changes[0]), changes[1..])
  }

  function PutIn(changes: seq<Change>): seq<Item> {
    if changes == [] then [] else In(changes[0]) + PutIn(changes[1..])
  }

  lemma {:induction false} ActiveAppend(q: seq<Item>, item: Item)
    ensures Active(q + [item]) == Active(q) + (if item.paused then [] else [item])
    ensures Paused(q + [item]) == Paused(q) + (if item.paused then [item] else [])
  {
    if q == [] {
      assert q + [item] == [item] && [item][1..] == [];
    } else {
      assert q + [item] == [q[0]] + (q[1..] + [item]);
      ActiveCons(q[0], q[1..] + [item]);
      ActiveAppend(q[1..], item);
    }
  }

  lemma {:induction false} OneInOneOut(q: seq<Item>, c: Change)
    requires QueuesOrTakes(c)
    ensures Out(q, c) + Active(Next(q, c)) == Active(q) + In(c)
    ensures Paused(Next(q, c)) == Paused(q)
  {
    if c.Enqueue? {
      ActiveAppend(q, c.item);
      assert Paused(q) + [] == Paused(q);
    } else if FirstActive(q) < |q| {
      ActiveTaken(q);
    }
  }

  lemma {:induction false} Joined(out: seq<Item>, outs: seq<Item>, last: seq<Item>, next: seq<Item>, first: seq<Item>, in0: seq<Item>, ins: seq<Item>)
    requires outs + last == next + ins && out + next == first + in0
    ensures (out + outs) + last == first + (in0 + ins)
  {
    assert (out + outs) + last == out + (outs + last);
    assert out + (next + ins) == (out + next) + ins;
    assert (first + in0) + ins == first + (in0 + ins);
  }

  /**
    First in, first out: however queueing and taking alternate, what has been taken, followed by the
    active items still there, is the active items of the start followed by those queued since.
   */
  lemma {:induction false} ArrivalOrder(q: seq<Item>, changes: seq<Change>)
    requires forall k :: 0 <= k < |changes| ==> QueuesOrTakes(changes[k])
    ensures TakenOut(q, changes) + Active(AfterAll(q, changes)) == Active(q) + PutIn(changes)
    ensures Paused(AfterAll(q, changes)) == Paused(q)
    decreases |changes|
  {
    if changes != [] {
      var c, rest := changes[0], changes[1..];
      assert QueuesOrTakes(c);
      var next := Next(q, c);
      ArrivalOrder(next, rest);
      OneInOneOut(q, c);
      Joined(Out(q, c), TakenOut(next, rest), Active(AfterAll(next, rest)), Active(next), Active(q), In(c), PutIn(rest));
    }
  }

  /** An edit rewrites the text of the item, pausing its mark; every other item and field stays, and the order. */
  lemma {:induction false} EditMeaning(q: seq<Item>, id: string, text: string, paused: bool)
    ensures Changed(q, Edit(id, text)).Some? <==> exists i :: 0 <= i < |q| && q[i].id == id
    ensures Changed(q, SetPaused(id, paused)).Some? <==> exists i :: 0 <= i < |q| && q[i].id == id
    ensures Changed(q, Edit(id, text)).Some? ==>
      var r := Changed(q, Edit(id, text)).value;
      |r| == |q| && forall i :: 0 <= i < |q| ==>
        r[i] == Item(q[i].id, if q[i].id == id then text else q[i].text, q[i].paused, q[i].createdAt)
    ensures Changed(q, SetPaused(id, paused)).Some? ==>
      var r := Changed(q, SetPaused(id, paused)).value;
      |r| == |q| && forall i :: 0 <= i < |q| ==>
        r[i] == Item(q[i].id, q[i].text, if q[i].id == id then paused else q[i].paused, q[i].createdAt)
  {
  }

  /** Removing filters: an item goes if it is the one, and the others keep their order. */
  lemma {:induction false} RemoveMeaning(item: Item, q: seq<Item>, id: string)
    ensures Without([item] + q, id) == (if item.id == id then [] else [item]) + Without(q, id)
    ensures Without([], id) == []
    ensures Changed(q, Remove(id)).Some? <==> exists i :: 0 <= i < |q| && q[i].id == id
    ensures Changed(q, Remove(id)).Some? ==> Changed(q, Remove(id)).value == Without(q, id)
  {
    assert ([item] + q)[1..] == q;
  }

  /** Clearing empties; taking is refused exactly when nothing is active. */
  lemma {:induction false} ClearAndTake(q: seq<Item>)
    ensures Changed(q, Clear) == if q == [] then None else Some([])
    ensures Changed(q, ShiftNext).None? <==> Active(q) == []
  {
    if FirstActive(q) == |q| {
      NoneActive(q);
    } else {
      ActiveTaken(q);
    }
  }

  /** A move goes to the nearest place there is, and is refused from outside the queue and onto its own place. */
  lemma {:induction false} ReorderMeaning(q: seq<Item>, from: int, to: int)
    ensures var inside := 0 <= from < |q|;
      var target := if to < 0 then 0 else if to >= |q| then |q| - 1 else to;
      && (Changed(q, Reorder(from, to)).Some? <==> inside && from != target)
      && (inside && from != target ==> Changed(q, Reorder(from, to)).value == Moved(q, from, target))
  {
  }

  // ---------- The store ----------

  class QueueStore {
    var queues: Queues
    var disk: Queues

    ghost function Now(): State
      reads this
    {
      State(queues, disk)
    }

    constructor ()
      ensures Now() == State(map[], map[])
    {
      queues, disk := map[], map[];
    }

    /** One write to storage, which may be lost. */
    method PersistQueue(sessionId: string, q: seq<Item>, stored: bool)
      modifies this`disk
      ensures disk == if stored then Put(old(disk), sessionId, q) else old(disk)
    {
      if stored {
        if q == [] {
          disk := disk - {sessionId};
        } else {
          disk := disk[sessionId := q];
        }
      }
    }

    method Apply(sessionId: string, next: seq<Item>, stored: bool)
      modifies this
      ensures queues == Put(old(queues), sessionId, next)
      ensures disk == if stored then Put(old(disk), sessionId, next) else old(disk)
    {
      if next == [] {
        queues := queues - {sessionId};
      } else {
        queues := queues[sessionId := next];
      }
      PersistQueue(sessionId, next, stored);
    }

    method EnqueueItem(sessionId: string, item: Item, stored: bool)
      modifies this
      ensures Now() == Step(old(Now()), Op(sessionId, Enqueue(item), stored))
    {
      Apply(sessionId, QueueOf(queues, sessionId) + [item], stored);
    }

    method ReorderItem(sessionId: string, from: int, to: int, stored: bool)
      modifies this
      ensures Now() == Step(old(Now()), Op(sessionId, Reorder(from, to), stored))
    {
      var q := QueueOf(queues, sessionId);
      if from < 0 || from >= |q| || q == [] {
        return;
      }
      var clampedTo := if to > |q| - 1 then |q| - 1 else if to < 0 then 0 else to;
      if from == clampedTo {
        return;
      }
      var moved := q[from];
      var next := q[..from] + q[from + 1..];
      next := next[..clampedTo] + [moved] + next[clampedTo..];
      Apply(sessionId, next, stored);
    }

    method TakeNext(sessionId: string, stored: bool) returns (item: Option<Item>)
      modifies this
      ensures Now() == Step(old(Now()), Op(sessionId, ShiftNext, stored))
      ensures var active := Active(QueueOf(old(queues), sessionId));
        item == if active == [] then None else Some(active[0])
    {
      var q := QueueOf(queues, sessionId);
      var idx := FirstActive(q);
      if idx == |q| {
        NoneActive(q);
        return None;
      }
      ActiveTaken(q);
      item := Some(q[idx]);
      Apply(sessionId, q[..idx] + q[idx + 1..], stored);
    }

    /** Editing, pausing and removing an item, and clearing a session. */
    method ChangeItems(sessionId: string, change: Change, stored: bool)
      requires change.Edit? || change.Remove? || change.SetPaused? || change.Clear?
      modifies this
      ensures Now() == Step(old(Now()), Op(sessionId, change, stored))
    {
      var q := QueueOf(queues, sessionId);
      match change
      case Edit(id, text) => if Has(q, id) { Apply(sessionId, WithText(q, id, text), stored); }
      case Remove(id) => if Has(q, id) { Apply(sessionId, Without(q, id), stored); }
      case SetPaused(id, paused) => if Has(q, id) { Apply(sessionId, WithPaused(q, id, paused), stored); }
      case Clear => if q != [] { Apply(sessionId, [], stored); }
    }

    method Hydrate(listed: Queues)
      modifies this`queues
      ensures queues == Hydrated(old(queues), listed)
    {
      queues := queues + map id | id in listed && listed[id] != [] :: listed[id];
    }
  }
}
