/**
  The debounced mirror of the composer drafts in local storage: src/stores/drafts-persistence.ts.

  A draft map is an object with an identity, because the writer deletes entries from the object
  it was handed, which usually is the store's own.  Serialized text is represented by the entries
  it lists, in key order.
 */
module DraftMirror {
  import opened Common

  const MAX_ENTRIES: nat := 200
  const MAX_VALUE_LENGTH: nat := 65536

  /** A draft text, or a value of another type that came in from storage. */
  datatype Value = Text(s: string) | NotText
  datatype Entry = Entry(key: string, value: Value)

  // ---------- Capping ----------

  predicate Fits(e: Entry) {
    e.value.Text? && |e.value.s| <= MAX_VALUE_LENGTH
  }

  function Fitting(entries: seq<Entry>): (r: seq<Entry>)
    ensures |r| <= |entries|
  {
    if entries == [] then [] else (if Fits(entries[0]) then [entries[0]] else []) + Fitting(entries[1..])
  }

  function Newest(entries: seq<Entry>): seq<Entry> {
    if |entries| > MAX_ENTRIES then entries[|entries| - MAX_ENTRIES..] else entries
  }

  /** What is written for a draft map: its newest entries, without those that are too long. */
  function Capped(entries: seq<Entry>): seq<Entry> {
    Fitting(Newest(entries))
  }

  predicate AllFit(entries: seq<Entry>) {
    forall i :: 0 <= i < |entries| ==> Fits(entries[i])
  }

  lemma {:induction false} FittingFits(entries: seq<Entry>)
    ensures AllFit(Fitting(entries))
    ensures Fitting(entries) == entries <==> AllFit(entries)
  {
    if entries != [] {
      FittingFits(entries[1..]);
    }
  }

  /** Capping changes nothing exactly when there are few enough entries, all short enough. */
  lemma {:induction false} CappedFixpointIff(entries: seq<Entry>)
    ensures Capped(entries) == entries <==> |entries| <= MAX_ENTRIES && AllFit(entries)
  {
    FittingFits(Newest(entries));
  }

  lemma {:induction false} CappedIdempotent(entries: seq<Entry>)
    ensures Capped(Capped(entries)) == Capped(entries)
  {
    FittingFits(Newest(entries));
    CappedFixpointIff(Capped(entries));
  }

  /** Removing what does not fit beforehand makes no difference to what is written. */
  lemma {:induction false} CappedFitting(entries: seq<Entry>)
    requires |entries| <= MAX_ENTRIES
    ensures Capped(Fitting(entries)) == Capped(entries) == Fitting(entries)
  {
    CappedIdempotent(entries);
  }

  // ---------- Merging stored drafts ----------

  function Assigned(entries: seq<Entry>, e: Entry): seq<Entry> {
    if entries == [] then [e]
    else if entries[0].key == e.key then [e] + entries[1..]
    else [entries[0]] + Assigned(entries[1..], e)
  }

  function Merged(entries: seq<Entry>, over: seq<Entry>): seq<Entry>
    decreases |over|
  {
    if over == [] then entries else Merged(Assigned(entries, over[0]), over[1..])
  }

  function LookUp(entries: seq<Entry>, key: string): Option<Value> {
    if entries == [] then None
    else if entries[0].key == key then Some(entries[0].value)
    else LookUp(entries[1..], key)
  }

  predicate KeysDistinct(entries: seq<Entry>) {
    forall i, j :: 0 <= i < j < |entries| ==> entries[i].key != entries[j].key
  }

  /** A draft assigned is read back, no other changes, and a key that is there keeps its place. */
  lemma {:induction false} AssignedReadsBack(entries: seq<Entry>, e: Entry, other: string)
    ensures LookUp(Assigned(entries, e), e.key) == Some(e.value)
    ensures other != e.key ==> LookUp(Assigned(entries, e), other) == LookUp(entries, other)
    ensures LookUp(entries, e.key).Some? ==>
      |Assigned(entries, e)| == |entries| && forall i :: 0 <= i < |entries| ==> Assigned(entries, e)[i].key == entries[i].key
    ensures LookUp(entries, e.key).None? ==> Assigned(entries, e) == entries + [e]
  {
    if entries != [] && entries[0].key != e.key {
      AssignedReadsBack(entries[1..], e, other);
    }
  }

  /** Merged in at boot, a stored draft wins over one in memory, and the others in memory stay. */
  lemma {:induction false} StoredDraftsWin(entries: seq<Entry>, stored: seq<Entry>, key: string)
    requires KeysDistinct(stored)
    ensures LookUp(Merged(entries, stored), key)
         == if LookUp(stored, key).Some? then LookUp(stored, key) else LookUp(entries, key)
    decreases |stored|
  {
    if stored != [] {
      var rest := stored[1..];
      assert forall i :: 0 <= i < |rest| ==> rest[i] == stored[i + 1];
      StoredDraftsWin(Assigned(entries, stored[0]), rest, key);
      AssignedReadsBack(entries, stored[0], key);
      AbsentKey(rest, stored[0].key);
    }
  }

  lemma {:induction false} AbsentKey(entries: seq<Entry>, key: string)
    requires forall i :: 0 <= i < |entries| ==> entries[i].key != key
    ensures LookUp(entries, key).None?
  {
    if entries != [] {
      AbsentKey(entries[1..], key);
    }
  }

  // ---------- What is written ----------

  /** Each entry is kept or dropped by itself: it is kept if it is a text of at most 64 K characters. */
  lemma {:induction false} FittingFirst(e: Entry, rest: seq<Entry>)
    ensures var fits := e.value.Text? && |e.value.s| <= 64 * 1024;
      Fitting([e] + rest) == (if fits then [e] else []) + Fitting(rest)
    ensures Fitting([]) == []
  {
    assert ([e] + rest)[1..] == rest;
  }

  /** A draft is written exactly when it is among the last 200 and fits. */
  lemma {:induction false} WrittenIff(entries: seq<Entry>, e: Entry)
    ensures e in Capped(entries) <==>
      && e.value.Text? && |e.value.s| <= 64 * 1024
      && exists i :: 0 <= i < |entries| && |entries| - 200 <= i && entries[i] == e
  {
    FittingMember(Newest(entries), e);
    var n := Newest(entries);
    var from := |entries| - |n|;
    assert n == entries[from..];
    assert e in n <==> exists i :: from <= i < |entries| && entries[i] == e by {
      if e in n {
        var k :| 0 <= k < |n| && n[k] == e;
        assert entries[from + k] == e;
      }
      if i :| from <= i < |entries| && entries[i] == e {
        assert n[i - from] == e;
      }
    }
  }

  lemma {:induction false} FittingMember(entries: seq<Entry>, e: Entry)
    ensures e in Fitting(entries) <==> e in entries && Fits(e)
  {
    if entries != [] {
      FittingMember(entries[1..], e);
    }
  }

  // ---------- Re-keying ----------

  function IndexOf(entries: seq<Entry>, key: string): (i: nat)
    ensures i <= |entries|
    ensures i < |entries| ==> entries[i].key == key
    ensures forall j :: 0 <= j < i ==> entries[j].key != key
  {
    if entries == [] || entries[0].key == key then 0 else 1 + IndexOf(entries[1..], key)
  }

  /** The store re-keys a draft by deleting the old key and assigning the new one, which comes last. */
  function Rekeyed(entries: seq<Entry>, oldKey: string, newKey: string): seq<Entry>
    requires IndexOf(entries, oldKey) < |entries|
  {
    var i := IndexOf(entries, oldKey);
    Assigned(entries[..i] + entries[i + 1..], Entry(newKey, entries[i].value))
  }

  lemma {:induction false} AssignedFresh(entries: seq<Entry>, e: Entry)
    requires IndexOf(entries, e.key) == |entries|
    ensures Assigned(entries, e) == entries + [e]
  {
    if entries != [] {
      AssignedFresh(entries[1..], e);
    }
  }

  /** Late re-keying is visible in the key order exactly when the re-keyed draft was not the newest one. */
  lemma {:induction false} RekeyKeepsOrderIff(entries: seq<Entry>, oldKey: string, newKey: string)
    requires IndexOf(entries, oldKey) < |entries| && IndexOf(entries, newKey) == |entries|
    ensures var i := IndexOf(entries, oldKey);
      Rekeyed(entries, oldKey, newKey) == entries[i := Entry(newKey, entries[i].value)] <==> i == |entries| - 1
  {
    var i := IndexOf(entries, oldKey);
    var rest, e := entries[..i] + entries[i + 1..], Entry(newKey, entries[i].value);
    assert IndexOf(rest, newKey) == |rest|;
    AssignedFresh(rest, e);
    if i < |entries| - 1 {
      assert (rest + [e])[i] == entries[i + 1];
    }
  }

  lemma {:induction false} MultisetWithout(entries: seq<Entry>, i: nat)
    requires i < |entries|
    ensures multiset(entries) == multiset(entries[..i] + entries[i + 1..]) + multiset{entries[i]}
  {
    assert entries == entries[..i] + [entries[i]] + entries[i + 1..];
  }

  /** The re-keyed draft leaves its place and comes last. */
  function MovedLast(entries: seq<Entry>, i: nat, e: Entry): (r: seq<Entry>)
    requires i < |entries|
    ensures |r| == |entries|
  {
    entries[..i] + entries[i + 1..] + [e]
  }

  /** One element replaced, or taken out and put at the end: the same elements from a place before it on. */
  lemma {:induction false} SameFrom(entries: seq<Entry>, i: nat, e: Entry, from: nat)
    requires from <= i < |entries|
    ensures multiset(MovedLast(entries, i, e)[from..]) == multiset(entries[i := e][from..])
  {
    var tail := entries[i := e][from..];
    assert MovedLast(entries, i, e)[from..] == tail[..i - from] + tail[i - from + 1..] + [e];
    MultisetWithout(tail, i - from);
  }

  /** From a later place on, only the second holds it. */
  lemma {:induction false} OtherFrom(entries: seq<Entry>, i: nat, e: Entry, from: nat)
    requires i < from < |entries| && e !in entries
    ensures multiset(MovedLast(entries, i, e)[from..]) != multiset(entries[i := e][from..])
  {
    var moved := MovedLast(entries, i, e)[from..];
    assert moved[|moved| - 1] == e;
    assert e in multiset(moved);
    assert entries[i := e][from..] == entries[from..];
  }

  lemma {:induction false} RekeyedMovesLast(entries: seq<Entry>, oldKey: string, newKey: string)
    requires IndexOf(entries, oldKey) < |entries| && IndexOf(entries, newKey) == |entries|
    ensures var i := IndexOf(entries, oldKey);
      var e := Entry(newKey, entries[i].value);
      Rekeyed(entries, oldKey, newKey) == MovedLast(entries, i, e) && e !in entries
  {
    var i := IndexOf(entries, oldKey);
    var rest := entries[..i] + entries[i + 1..];
    assert IndexOf(rest, newKey) == |rest|;
    AssignedFresh(rest, Entry(newKey, entries[i].value));
  }

  /** Where the newest entries start. */
  function Start(n: nat): nat {
    if n > MAX_ENTRIES then n - MAX_ENTRIES else 0
  }

  lemma {:induction false} NewestFrom(entries: seq<Entry>)
    ensures Newest(entries) == entries[Start(|entries|)..]
  {
    assert entries[0..] == entries;
  }

  lemma {:induction false} SurvivorsIff(entries: seq<Entry>, i: nat, e: Entry)
    requires i < |entries| && e !in entries
    ensures multiset(Newest(MovedLast(entries, i, e))) == multiset(Newest(entries[i := e]))
        <==> Start(|entries|) <= i
  {
    NewestFrom(MovedLast(entries, i, e));
    NewestFrom(entries[i := e]);
    if Start(|entries|) <= i {
      SameFrom(entries, i, e, Start(|entries|));
    } else {
      OtherFrom(entries, i, e, Start(|entries|));
    }
  }

  /**
    The cap lets the same drafts survive, re-keyed late or in place, exactly when it does not apply
    or the re-keyed draft is among the newest; otherwise the re-keyed draft survives in the place
    of another.
   */
  lemma {:induction false} RekeySurvivorsIff(entries: seq<Entry>, oldKey: string, newKey: string)
    requires IndexOf(entries, oldKey) < |entries| && IndexOf(entries, newKey) == |entries|
    ensures var i := IndexOf(entries, oldKey);
      multiset(Newest(Rekeyed(entries, oldKey, newKey))) == multiset(Newest(entries[i := Entry(newKey, entries[i].value)]))
        <==> |entries| <= MAX_ENTRIES || i >= |entries| - MAX_ENTRIES
  {
    var i := IndexOf(entries, oldKey);
    RekeyedMovesLast(entries, oldKey, newKey);
    SurvivorsIff(entries, i, Entry(newKey, entries[i].value));
  }

  // ---------- The mirror ----------

  /** A draft map object. */
  class Drafts {
    var entries: seq<Entry>

    constructor (entries: seq<Entry>)
      ensures this.entries == entries
    {
      this.entries := entries;
    }
  }

  class DraftPersistence {
    /** The store's draft map. */
    var drafts: Drafts
    var storage: seq<Entry>
    /** The map a pending write was scheduled with; null when no write is pending. */
    var pending: Drafts?
    var lastSerialized: Option<seq<Entry>>
    var lastDraftsRef: Drafts?
    var booted: bool
    /** The last write failed, or wrote another text than the one last serialized. */
    ghost var behind: bool

    /** Storage is up to date with what was last handed to the writer. */
    ghost predicate Written()
      reads this
    {
      behind || (lastSerialized.Some? && storage == Capped(lastSerialized.value))
    }

    /**
      A pending write carries the text last serialized; with none pending that text is stored in
      its capped form.  Once booted, the store's drafts are that text, or what capping left of it.
     */
    ghost predicate Valid()
      reads this, drafts, pending
    {
      && (pending != null ==> lastSerialized == Some(pending.entries))
      && (pending == null && lastSerialized.Some? ==> Written())
      && (booted ==> lastSerialized.Some?)
      && (booted && pending != null ==> drafts.entries == pending.entries)
      && (booted && pending == null ==> Capped(drafts.entries) == Capped(lastSerialized.value))
    }

    constructor (drafts: Drafts, storage: seq<Entry>)
      ensures Valid() && !booted && pending == null && this.drafts == drafts && this.storage == storage
    {
      this.drafts, this.storage := drafts, storage;
      pending, lastSerialized, lastDraftsRef, booted, behind := null, None, null, false, false;
    }

    /** Writes a draft map, deleting from the map itself what is not written, unless it is too large. */
    method WriteStored(d: Drafts, ok: bool)
      modifies this`storage, this`behind, d
      ensures d.entries == if |old(d.entries)| > MAX_ENTRIES then old(d.entries) else Fitting(old(d.entries))
      ensures storage == if ok then Capped(old(d.entries)) else old(storage)
      ensures behind == !ok
    {
      var toPersist := d.entries;
      if |toPersist| > MAX_ENTRIES {
        toPersist := toPersist[|toPersist| - MAX_ENTRIES..];
        toPersist := Fitting(toPersist);
      } else {
        toPersist := Fitting(toPersist);
        d.entries := toPersist;
      }
      if ok {
        storage := toPersist;
      }
      behind := !ok;
    }

    method ScheduleWrite(d: Drafts)
      modifies this`pending, this`lastSerialized
      ensures if old(lastSerialized) == Some(d.entries) then pending == old(pending) && lastSerialized == old(lastSerialized)
              else pending == d && lastSerialized == Some(d.entries)
    {
      if lastSerialized == Some(d.entries) {
        return;
      }
      lastSerialized := Some(d.entries);
      pending := d;
    }

    /** The store's subscriber: called after every change of the store's state. */
    method Notify()
      requires booted
      requires pending != null ==> lastSerialized == Some(pending.entries)
      requires pending == null && lastSerialized.Some? ==> Written()
      requires drafts == lastDraftsRef ==> Valid()
      modifies this`pending, this`lastSerialized, this`lastDraftsRef
      ensures Valid() && lastDraftsRef == drafts
    {
      if drafts == lastDraftsRef {
        return;
      }
      lastDraftsRef := drafts;
      ScheduleWrite(drafts);
    }

    /** The user's typing, a removal or a re-keying: the store gets a new draft map. */
    method ChangeDrafts(entries: seq<Entry>)
      requires Valid()
      modifies this
      ensures Valid() && drafts.entries == entries && storage == old(storage) && booted == old(booted)
      ensures booted && pending != null ==> pending.entries == entries
      ensures booted && pending == null ==> behind || storage == Capped(entries)
    {
      drafts := new Drafts(entries);
      if booted {
        Notify();
      }
    }

    /** A change of the store that leaves the drafts alone. */
    method OtherChange()
      requires Valid()
      modifies this
      ensures Valid() && drafts == old(drafts) && drafts.entries == old(drafts.entries) && storage == old(storage)
    {
      if booted && drafts != lastDraftsRef {
        lastDraftsRef := drafts;
        ScheduleWrite(drafts);
      }
    }

    /** The debounce timer fires. */
    method TimerFires(ok: bool)
      requires Valid() && pending != null
      modifies this, drafts, pending
      ensures Valid() && pending == null && drafts == old(drafts)
      ensures booted && ok ==> storage == Capped(drafts.entries) && storage == Capped(old(drafts.entries))
      ensures drafts.entries == if old(pending) == drafts && |old(drafts.entries)| <= MAX_ENTRIES
                                then Fitting(old(drafts.entries)) else old(drafts.entries)
    {
      var d := pending;
      ghost var text := d.entries;
      pending := null;
      WriteStored(d, ok);
      if |text| <= MAX_ENTRIES {
        CappedFitting(text);
      }
    }

    /** The page goes away: a pending write is done at once, from the store's own map. */
    method Flush(ok: bool)
      requires Valid()
      modifies this, drafts
      ensures Valid() && pending == null && drafts == old(drafts)
      ensures old(pending) != null && ok ==> storage == Capped(old(drafts.entries))
      ensures booted && old(pending) == null ==> storage == old(storage) && (behind || storage == Capped(drafts.entries))
    {
      if pending != null {
        ghost var text := drafts.entries;
        pending := null;
        WriteStored(drafts, ok);
        behind := behind || lastSerialized != Some(text);
        if |text| <= MAX_ENTRIES {
          CappedFitting(text);
        }
      }
    }

    /** Starts persistence: stored drafts win over those in memory, and the result is scheduled. */
    method Boot()
      requires Valid()
      modifies this
      ensures Valid() && booted
      ensures old(booted) || storage == [] ==> drafts == old(drafts)
      ensures !old(booted) ==> drafts.entries == Merged(old(drafts.entries), storage)
    {
      if booted {
        return;
      }
      booted := true;
      if storage != [] {
        drafts := new Drafts(Merged(drafts.entries, storage));
      }
      ScheduleWrite(drafts);
    }

    method Dispose()
      requires Valid()
      modifies this`booted
      ensures Valid() && !booted
    {
      booted := false;
    }
  }
}
