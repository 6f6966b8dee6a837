/**
  What every run of the session list keeps (src/stores/sessions-store.ts): one row per session
  over the task group and all workspace caches, no empty draft, and node counts that follow
  removals.  Rows are counted, so the laws say what each operation adds and takes away.
 */
module SessionInvariants {
  import opened Common
  import opened Sessions

  function Count(rows: seq<Row>, id: string): nat {
    if rows == [] then 0 else (if rows[0].id == id then 1 else 0) + Count(rows[1..], id)
  }

  function CountCaches(caches: seq<Cache>, id: string): nat {
    if caches == [] then 0 else Count(caches[0].rows, id) + CountCaches(caches[1..], id)
  }

  /** The number of rows the sidebar has for a session. */
  function Total(s: State, id: string): nat {
    Count(s.independent, id) + CountCaches(s.caches, id)
  }

  ghost predicate WellFormed(s: State) {
    && (forall id: string :: Total(s, id) <= 1)
    && (forall i, j :: 0 <= i < j < |s.caches| ==> s.caches[i].cwd != s.caches[j].cwd)
    && (forall id :: id in s.drafts ==> s.drafts[id] != "")
  }

  // ---------- Counting ----------

  lemma {:induction false} CountHolds(rows: seq<Row>, id: string)
    ensures Holds(rows, id) <==> Count(rows, id) > 0
  {
    if rows != [] {
      CountHolds(rows[1..], id);
    }
  }

  lemma {:induction false} CountSplit(rows: seq<Row>, i: nat, id: string)
    requires i < |rows|
    ensures Count(rows, id) == Count(rows[..i], id) + (if rows[i].id == id then 1 else 0) + Count(rows[i + 1..], id)
  {
    if i > 0 {
      CountSplit(rows[1..], i - 1, id);
      assert rows[1..][..i - 1] == rows[..i][1..];
      assert rows[1..][i..] == rows[i + 1..];
    }
  }

  lemma {:induction false} CountPatched(rows: seq<Row>, patch: Row, id: string)
    requires Holds(rows, patch.id)
    ensures Count(Patched(rows, patch), id) == Count(rows, id)
  {
    var i := Find(rows, patch.id);
    var r := Patched(rows, patch);
    CountSplit(rows, i, id);
    CountSplit(r, i, id);
    assert r[..i] == rows[..i] && r[i + 1..] == rows[i + 1..];
  }

  lemma {:induction false} CountWithout(rows: seq<Row>, x: string, id: string)
    ensures Count(Without(rows, x), id) == if id == x then 0 else Count(rows, id)
  {
    if rows != [] {
      CountWithout(rows[1..], x, id);
    }
  }

  lemma {:induction false} CountRenamed(rows: seq<Row>, a: string, b: string, id: string)
    requires a != b
    ensures Count(RenamedRows(rows, a, b), id)
         == if id == a then 0 else Count(rows, id) + (if id == b then Count(rows, a) else 0)
  {
    if rows != [] {
      CountRenamed(rows[1..], a, b, id);
      assert RenamedRows(rows, a, b)[1..] == RenamedRows(rows[1..], a, b);
    }
  }

  lemma {:induction false} CountCacheUpdate(caches: seq<Cache>, c: nat, next: Cache, id: string)
    requires c < |caches|
    ensures CountCaches(caches[c := next], id) == CountCaches(caches, id) - Count(caches[c].rows, id) + Count(next.rows, id)
    ensures Count(caches[c].rows, id) <= CountCaches(caches, id)
  {
    if c > 0 {
      CountCacheUpdate(caches[1..], c - 1, next, id);
      assert caches[c := next][1..] == caches[1..][c - 1 := next];
    }
  }

  lemma {:induction false} CountCachesWithout(caches: seq<Cache>, x: string, id: string)
    ensures CountCaches(CachesWithout(caches, x), id) == if id == x then 0 else CountCaches(caches, id)
  {
    if caches != [] {
      CountWithout(caches[0].rows, x, id);
      CountCachesWithout(caches[1..], x, id);
      assert CachesWithout(caches, x)[1..] == CachesWithout(caches[1..], x);
    }
  }

  lemma {:induction false} CountCachesRenamed(caches: seq<Cache>, a: string, b: string, id: string)
    requires a != b
    ensures CountCaches(RenamedCaches(caches, a, b), id)
         == if id == a then 0 else CountCaches(caches, id) + (if id == b then CountCaches(caches, a) else 0)
  {
    if caches != [] {
      CountRenamed(caches[0].rows, a, b, id);
      CountCachesRenamed(caches[1..], a, b, id);
      assert RenamedCaches(caches, a, b)[1..] == RenamedCaches(caches[1..], a, b);
    }
  }

  lemma {:induction false} CountCachesHolder(caches: seq<Cache>, id: string)
    ensures FindHolder(caches, id) < |caches| <==> CountCaches(caches, id) > 0
  {
    if caches != [] {
      CountHolds(caches[0].rows, id);
      CountCachesHolder(caches[1..], id);
    }
  }

  lemma {:induction false} CountCachesAppend(caches: seq<Cache>, next: Cache, id: string)
    ensures CountCaches(caches + [next], id) == CountCaches(caches, id) + Count(next.rows, id)
  {
    if caches != [] {
      CountCachesAppend(caches[1..], next, id);
      assert (caches + [next])[1..] == caches[1..] + [next];
    } else {
      assert caches + [next] == [next];
    }
  }

  // ---------- What each operation does to the number of rows ----------

  /** An unseen session finds a place: its directory is the inbox, or its node is loaded. */
  predicate HasPlace(s: State, patch: Row) {
    var cwd := CwdOf(patch.fields);
    cwd == "" || cwd == s.homeCwd || FindCwd(s.caches, cwd) < |s.caches|
  }

  lemma {:induction false} UpsertTotal(s: State, patch: Row, now: string, id: string)
    ensures Total(Upserted(s, patch, now), id)
         == Total(s, id) + (if id == patch.id && Total(s, id) == 0 && HasPlace(s, patch) then 1 else 0)
  {
    var holder, cwd := FindHolder(s.caches, patch.id), CwdOf(patch.fields);
    var node := FindCwd(s.caches, cwd);
    CountHolds(s.independent, patch.id);
    CountCachesHolder(s.caches, patch.id);
    if Holds(s.independent, patch.id) {
      CountPatched(s.independent, patch, id);
    } else if holder < |s.caches| {
      CountPatched(s.caches[holder].rows, patch, id);
      CountCacheUpdate(s.caches, holder, Cache(s.caches[holder].cwd, Patched(s.caches[holder].rows, patch)), id);
    } else if cwd == "" || cwd == s.homeCwd {
      assert ([Inserted(patch, s.homeCwd, now)] + s.independent)[1..] == s.independent;
    } else if node < |s.caches| {
      var row := Inserted(patch, cwd, now);
      assert ([row] + s.caches[node].rows)[1..] == s.caches[node].rows;
      CountCacheUpdate(s.caches, node, Cache(cwd, [row] + s.caches[node].rows), id);
    }
  }

  lemma {:induction false} RemoveTotal(s: State, x: string, id: string)
    ensures Total(Removed(s, x), id) == if id == x then 0 else Total(s, id)
  {
    CountWithout(s.independent, x, id);
    CountCachesWithout(s.caches, x, id);
  }

  lemma {:induction false} MigrateTotal(s: State, a: string, b: string, id: string)
    requires a != b
    ensures Total(Migrated(s, a, b), id) == if id == a then 0 else Total(s, id) + (if id == b then Total(s, a) else 0)
  {
    CountRenamed(s.independent, a, b, id);
    CountCachesRenamed(s.caches, a, b, id);
  }

  // ---------- Distinctness over runs ----------

  predicate DistinctRows(rows: seq<Row>) {
    forall i, j :: 0 <= i < j < |rows| ==> rows[i].id != rows[j].id
  }

  /** No row of the list is in a cache, that of one directory aside. */
  predicate ApartFromCaches(rows: seq<Row>, caches: seq<Cache>, except: Option<string>) {
    forall i, c :: 0 <= i < |rows| && 0 <= c < |caches| && except != Some(caches[c].cwd) ==> !Holds(caches[c].rows, rows[i].id)
  }

  /**
    What keeps the list well formed: a migration must not meet a row under its target, and a
    list loaded from the backend must not repeat a session it or another group already has.
   */
  ghost predicate Legal(s: State, op: Op) {
    match op
    case Migrate(a, b) => a == b || Total(s, a) == 0 || Total(s, b) == 0
    case SetIndependent(rows) => DistinctRows(rows) && ApartFromCaches(rows, s.caches, None)
    case SetWorkspaceSessions(cwd, rows) =>
      && DistinctRows(rows) && ApartFromCaches(rows, s.caches, Some(cwd))
      && forall i :: 0 <= i < |rows| ==> !Holds(s.independent, rows[i].id)
    case _ => true
  }

  ghost predicate LegalRun(s: State, ops: seq<Op>)
    decreases |ops|
  {
    ops == [] || (Legal(s, ops[0]) && LegalRun(Step(s, ops[0]), ops[1..]))
  }

  lemma {:induction false} MigrateWellFormedIff(s: State, a: string, b: string)
    requires WellFormed(s)
    ensures WellFormed(Migrated(s, a, b)) <==> Legal(s, Migrate(a, b))
  {
    if a != b {
      var t := Migrated(s, a, b);
      forall id: string
        ensures Total(t, id) == if id == a then 0 else Total(s, id) + (if id == b then Total(s, a) else 0)
      {
        MigrateTotal(s, a, b, id);
      }
      assert Total(s, a) <= 1 && Total(s, b) <= 1;
      assert Total(t, b) == Total(s, b) + Total(s, a);
    }
  }

  lemma {:induction false} UpsertKeepsWellFormed(s: State, patch: Row, now: string)
    requires WellFormed(s)
    ensures WellFormed(Upserted(s, patch, now))
  {
    forall id: string ensures Total(Upserted(s, patch, now), id) <= 1 {
      UpsertTotal(s, patch, now, id);
    }
  }

  lemma {:induction false} RemoveKeepsWellFormed(s: State, x: string)
    requires WellFormed(s)
    ensures WellFormed(Removed(s, x))
  {
    forall id: string ensures Total(Removed(s, x), id) <= 1 {
      RemoveTotal(s, x, id);
    }
  }

  // ---------- Loaded lists ----------

  /** No session has more than one row, over a list and the groups it joins. */
  ghost predicate CountedOnce(rows: seq<Row>, others: seq<Cache>) {
    forall id: string :: Count(rows, id) + CountCaches(others, id) <= 1
  }

  lemma {:induction false} DistinctTail(rows: seq<Row>)
    requires rows != []
    ensures DistinctRows(rows) <==> DistinctRows(rows[1..]) && !Holds(rows[1..], rows[0].id)
  {
    var rest := rows[1..];
    HoldsIff(rest, rows[0].id);
    assert forall i :: 0 <= i < |rest| ==> rest[i] == rows[i + 1];
    if DistinctRows(rest) && !Holds(rest, rows[0].id) {
      forall i, j | 0 <= i < j < |rows| ensures rows[i].id != rows[j].id {
        assert rows[j] == rest[j - 1];
        assert i > 0 ==> rows[i] == rest[i - 1];
      }
    }
  }

  lemma {:induction false} DistinctCounts(rows: seq<Row>, id: string)
    requires DistinctRows(rows)
    ensures Count(rows, id) <= 1
  {
    if rows != [] {
      DistinctTail(rows);
      DistinctCounts(rows[1..], id);
      CountHolds(rows[1..], rows[0].id);
    }
  }

  lemma {:induction false} CountsDistinct(rows: seq<Row>)
    requires forall id: string :: Count(rows, id) <= 1
    ensures DistinctRows(rows)
  {
    if rows != [] {
      forall id: string ensures Count(rows[1..], id) <= 1 {
        assert Count(rows, id) <= 1;
      }
      CountsDistinct(rows[1..]);
      assert Count(rows, rows[0].id) <= 1;
      CountHolds(rows[1..], rows[0].id);
      DistinctTail(rows);
    }
  }

  lemma {:induction false} CountCachesIff(caches: seq<Cache>, id: string)
    ensures CountCaches(caches, id) == 0 <==> forall c :: 0 <= c < |caches| ==> !Holds(caches[c].rows, id)
  {
    CountCachesHolder(caches, id);
  }

  /** A list joins groups that repeat nothing exactly when it is distinct and apart from them. */
  lemma {:induction false} ApartIff(rows: seq<Row>, others: seq<Cache>)
    requires forall id: string :: CountCaches(others, id) <= 1
    ensures CountedOnce(rows, others) <==> DistinctRows(rows) && ApartFromCaches(rows, others, None)
  {
    if CountedOnce(rows, others) {
      forall id: string ensures Count(rows, id) <= 1 {
        assert Count(rows, id) + CountCaches(others, id) <= 1;
      }
      CountsDistinct(rows);
      forall i, c | 0 <= i < |rows| && 0 <= c < |others| ensures !Holds(others[c].rows, rows[i].id) {
        var id := rows[i].id;
        HoldsIff(rows, id);
        CountHolds(rows, id);
        assert Count(rows, id) + CountCaches(others, id) <= 1;
        CountCachesIff(others, id);
      }
    }
    if DistinctRows(rows) && ApartFromCaches(rows, others, None) {
      forall id: string ensures Count(rows, id) + CountCaches(others, id) <= 1 {
        DistinctCounts(rows, id);
        if Count(rows, id) > 0 {
          CountHolds(rows, id);
          assert rows[Find(rows, id)].id == id;
          CountCachesIff(others, id);
        }
      }
    }
  }

  /** The counts of a state with a newly loaded list. */
  lemma {:induction false} LoadedIff(s: State, t: State, rows: seq<Row>, others: seq<Cache>)
    requires WellFormed(s) && t.drafts == s.drafts
    requires forall i, j :: 0 <= i < j < |t.caches| ==> t.caches[i].cwd != t.caches[j].cwd
    requires forall id: string :: Total(t, id) == Count(rows, id) + CountCaches(others, id)
    requires forall id: string :: CountCaches(others, id) <= Total(s, id)
    ensures WellFormed(t) <==> DistinctRows(rows) && ApartFromCaches(rows, others, None)
  {
    forall id: string ensures CountCaches(others, id) <= 1 {
      assert CountCaches(others, id) <= Total(s, id) <= 1;
    }
    ApartIff(rows, others);
    if WellFormed(t) {
      forall id: string ensures Count(rows, id) + CountCaches(others, id) <= 1 {
        assert Total(t, id) == Count(rows, id) + CountCaches(others, id) <= 1;
      }
    }
  }

  lemma {:induction false} SetIndependentIff(s: State, rows: seq<Row>)
    requires WellFormed(s)
    ensures WellFormed(Step(s, SetIndependent(rows))) <==> Legal(s, SetIndependent(rows))
  {
    LoadedIff(s, Step(s, SetIndependent(rows)), rows, s.caches);
  }

  /** The groups other than one directory's cache: the other caches, and the tasks as one more. */
  function OtherGroups(s: State, cwd: string): seq<Cache> {
    var c := FindCwd(s.caches, cwd);
    [Cache("", s.independent)] + (if c < |s.caches| then s.caches[..c] + s.caches[c + 1..] else s.caches)
  }

  lemma {:induction false} CountCachesConcat(a: seq<Cache>, b: seq<Cache>, id: string)
    ensures CountCaches(a + b, id) == CountCaches(a, id) + CountCaches(b, id)
  {
    if a == [] {
      assert a + b == b;
    } else {
      CountCachesConcat(a[1..], b, id);
      assert (a + b)[1..] == a[1..] + b;
    }
  }

  lemma {:induction false} OtherGroupsTotal(s: State, cwd: string, rows: seq<Row>, id: string)
    ensures Total(Step(s, SetWorkspaceSessions(cwd, rows)), id) == Count(rows, id) + CountCaches(OtherGroups(s, cwd), id)
    ensures CountCaches(OtherGroups(s, cwd), id) <= Total(s, id)
  {
    var c := FindCwd(s.caches, cwd);
    var others := if c < |s.caches| then s.caches[..c] + s.caches[c + 1..] else s.caches;
    assert OtherGroups(s, cwd)[1..] == others;
    if c < |s.caches| {
      var a, m, b := s.caches[..c], s.caches[c], s.caches[c + 1..];
      assert s.caches == a + ([m] + b) && ([m] + b)[1..] == b;
      CountCachesConcat(a, b, id);
      CountCachesConcat(a, [m] + b, id);
      CountCacheUpdate(s.caches, c, Cache(cwd, rows), id);
    } else {
      CountCachesAppend(s.caches, Cache(cwd, rows), id);
    }
  }

  lemma {:induction false} OtherGroupsMembers(s: State, cwd: string, k: nat)
    requires forall i, j :: 0 <= i < j < |s.caches| ==> s.caches[i].cwd != s.caches[j].cwd
    ensures OtherGroups(s, cwd)[0].rows == s.independent
    ensures k < |s.caches| && s.caches[k].cwd != cwd ==>
      exists j :: 1 <= j < |OtherGroups(s, cwd)| && OtherGroups(s, cwd)[j] == s.caches[k]
    ensures 1 <= k < |OtherGroups(s, cwd)| ==>
      exists c :: 0 <= c < |s.caches| && s.caches[c].cwd != cwd && s.caches[c] == OtherGroups(s, cwd)[k]
  {
    var g, at := OtherGroups(s, cwd), FindCwd(s.caches, cwd);
    if k < |s.caches| && s.caches[k].cwd != cwd {
      var j := if k < at then k + 1 else k;
      assert g[j] == s.caches[k];
    }
    if 1 <= k < |g| {
      var c := if k - 1 < at then k - 1 else k;
      assert s.caches[c] == g[k];
    }
  }

  lemma {:induction false} ApartFromOthersIff(s: State, cwd: string, rows: seq<Row>)
    requires WellFormed(s)
    ensures ApartFromCaches(rows, OtherGroups(s, cwd), None) <==>
      && ApartFromCaches(rows, s.caches, Some(cwd))
      && forall i :: 0 <= i < |rows| ==> !Holds(s.independent, rows[i].id)
  {
    var g := OtherGroups(s, cwd);
    OtherGroupsMembers(s, cwd, 0);
    if ApartFromCaches(rows, g, None) {
      forall i | 0 <= i < |rows| ensures !Holds(s.independent, rows[i].id) {
        assert !Holds(g[0].rows, rows[i].id);
      }
      forall i, c | 0 <= i < |rows| && 0 <= c < |s.caches| && s.caches[c].cwd != cwd
        ensures !Holds(s.caches[c].rows, rows[i].id)
      {
        OtherGroupsMembers(s, cwd, c);
        var j :| 1 <= j < |g| && g[j] == s.caches[c];
        assert !Holds(g[j].rows, rows[i].id);
      }
    } else {
      var i, k :| 0 <= i < |rows| && 0 <= k < |g| && Holds(g[k].rows, rows[i].id);
      OtherGroupsMembers(s, cwd, k);
    }
  }

  lemma {:induction false} SetWorkspaceSessionsIff(s: State, cwd: string, rows: seq<Row>)
    requires WellFormed(s)
    ensures WellFormed(Step(s, SetWorkspaceSessions(cwd, rows))) <==> Legal(s, SetWorkspaceSessions(cwd, rows))
  {
    var t := Step(s, SetWorkspaceSessions(cwd, rows));
    forall id: string
      ensures Total(t, id) == Count(rows, id) + CountCaches(OtherGroups(s, cwd), id)
      ensures CountCaches(OtherGroups(s, cwd), id) <= Total(s, id)
    {
      OtherGroupsTotal(s, cwd, rows, id);
    }
    LoadedIff(s, t, rows, OtherGroups(s, cwd));
    ApartFromOthersIff(s, cwd, rows);
  }

  lemma {:induction false} SameRows(s: State, t: State)
    requires WellFormed(s) && t.independent == s.independent && t.caches == s.caches
    requires forall id :: id in t.drafts ==> t.drafts[id] != ""
    ensures WellFormed(t)
  {
    assert forall id: string :: Total(t, id) == Total(s, id);
  }

  /** One step keeps the list well formed exactly when it is legal. */
  lemma {:induction false} StepWellFormedIff(s: State, op: Op)
    requires WellFormed(s)
    ensures WellFormed(Step(s, op)) <==> Legal(s, op)
  {
    match op
    case Upsert(patch, now) => UpsertKeepsWellFormed(s, patch, now);
    case Remove(x) => RemoveKeepsWellFormed(s, x);
    case Migrate(a, b) => MigrateWellFormedIff(s, a, b);
    case SetIndependent(rows) => SetIndependentIff(s, rows);
    case SetWorkspaceSessions(cwd, rows) => SetWorkspaceSessionsIff(s, cwd, rows);
    case SetDraft(_, _) => SameRows(s, Step(s, op));
    case ClearDraft(_) => SameRows(s, Step(s, op));
    case RenameDraft(_, _) => SameRows(s, Step(s, op));
    case SetCurrent(_) => SameRows(s, Step(s, op));
    case SetWorkspaces(_) => SameRows(s, Step(s, op));
    case SetHomeCwd(_) => SameRows(s, Step(s, op));
  }

  /** From a well-formed list every legal run ends in one. */
  lemma {:induction false} RunKeepsWellFormed(s: State, ops: seq<Op>)
    requires WellFormed(s) && LegalRun(s, ops)
    ensures WellFormed(Run(s, ops))
    decreases |ops|
  {
    if ops != [] {
      StepWellFormedIff(s, ops[0]);
      RunKeepsWellFormed(Step(s, ops[0]), ops[1..]);
    }
  }

  // ---------- Callers that share one new session ----------

  /** Every caller that joined one backend call moves its own provisional id to the same real id. */
  function MigratedAll(s: State, pending: seq<string>, realId: string): State
    decreases |pending|
  {
    if pending == [] then s else MigratedAll(Migrated(s, pending[0], realId), pending[1..], realId)
  }

  function PendingRows(s: State, pending: seq<string>): nat {
    if pending == [] then 0 else Total(s, pending[0]) + PendingRows(s, pending[1..])
  }

  lemma {:induction false} MigratedAllTotal(s: State, pending: seq<string>, realId: string, id: string)
    requires realId !in pending
    requires forall i, j :: 0 <= i < j < |pending| ==> pending[i] != pending[j]
    ensures Total(MigratedAll(s, pending, realId), id)
         == if id in pending then 0 else Total(s, id) + (if id == realId then PendingRows(s, pending) else 0)
    decreases |pending|
  {
    if pending != [] {
      var t := Migrated(s, pending[0], realId);
      MigrateTotal(s, pending[0], realId, id);
      MigrateTotal(s, pending[0], realId, realId);
      MigratedAllTotal(t, pending[1..], realId, id);
      PendingRowsMigrated(s, pending[0], realId, pending[1..]);
    }
  }

  lemma {:induction false} PendingRowsMigrated(s: State, a: string, realId: string, pending: seq<string>)
    requires a != realId && a !in pending && realId !in pending
    ensures PendingRows(Migrated(s, a, realId), pending) == PendingRows(s, pending)
  {
    if pending != [] {
      MigrateTotal(s, a, realId, pending[0]);
      PendingRowsMigrated(s, a, realId, pending[1..]);
    }
  }

  /** The shared session is listed once exactly when at most one caller had put up a row. */
  lemma {:induction false} FanOutDistinctIff(s: State, pending: seq<string>, realId: string)
    requires WellFormed(s) && Total(s, realId) == 0 && realId !in pending
    requires forall i, j :: 0 <= i < j < |pending| ==> pending[i] != pending[j]
    ensures (forall id: string :: Total(MigratedAll(s, pending, realId), id) <= 1) <==> PendingRows(s, pending) <= 1
  {
    var t := MigratedAll(s, pending, realId);
    forall id: string
      ensures Total(t, id) == if id in pending then 0 else Total(s, id) + (if id == realId then PendingRows(s, pending) else 0)
    {
      MigratedAllTotal(s, pending, realId, id);
    }
    assert Total(t, realId) == PendingRows(s, pending);
  }

  // ---------- Removal and the node counts ----------

  ghost predicate NodeHolds(caches: seq<Cache>, cwd: string, id: string) {
    exists c :: 0 <= c < |caches| && caches[c].cwd == cwd && Holds(caches[c].rows, id)
  }

  lemma {:induction false} LastHolderIsOnly(caches: seq<Cache>, id: string)
    ensures LastHolder(caches, id).None? <==> CountCaches(caches, id) == 0
    ensures LastHolder(caches, id).Some? ==> NodeHolds(caches, LastHolder(caches, id).value, id)
    ensures CountCaches(caches, id) <= 1 ==>
      forall cwd :: NodeHolds(caches, cwd, id) ==> LastHolder(caches, id) == Some(cwd)
  {
    if caches != [] {
      var n := |caches| - 1;
      LastHolderIsOnly(caches[..n], id);
      CountHolds(caches[n].rows, id);
      CountCachesAppend(caches[..n], caches[n], id);
      assert caches == caches[..n] + [caches[n]];
      forall cwd | NodeHolds(caches, cwd, id)
        ensures NodeHolds(caches[..n], cwd, id) || (Holds(caches[n].rows, id) && caches[n].cwd == cwd)
      {
        var c :| 0 <= c < |caches| && caches[c].cwd == cwd && Holds(caches[c].rows, id);
        assert c == n || caches[..n][c] == caches[c];
      }
      if LastHolder(caches[..n], id).Some? {
        var c :| 0 <= c < n && caches[..n][c].cwd == LastHolder(caches[..n], id).value && Holds(caches[..n][c].rows, id);
        assert Holds(caches[c].rows, id) && caches[c].cwd == LastHolder(caches[..n], id).value;
      }
      forall cwd | NodeHolds(caches[..n], cwd, id) ensures CountCaches(caches[..n], id) > 0 {
      }
    }
  }

  /** Removing a session lowers exactly the nodes of the cache that held it, floored at zero. */
  lemma {:induction false} RemoveLowersHolder(s: State, id: string, k: nat)
    requires WellFormed(s) && k < |s.workspaces|
    ensures |Removed(s, id).workspaces| == |s.workspaces|
    ensures Removed(s, id).workspaces[k].cwd == s.workspaces[k].cwd
    ensures var n := s.workspaces[k].sessionCount;
      Removed(s, id).workspaces[k].sessionCount
        == if NodeHolds(s.caches, s.workspaces[k].cwd, id) then (if n > 0 then n - 1 else 0) else n
  {
    assert Total(s, id) <= 1;
    LastHolderIsOnly(s.caches, id);
  }

  // ---------- What an upsert leaves alone, and what it writes ----------

  function RowOf(s: State, id: string): Option<Row> {
    var c := FindHolder(s.caches, id);
    if Holds(s.independent, id) then Some(s.independent[Find(s.independent, id)])
    else if c < |s.caches| then Some(s.caches[c].rows[Find(s.caches[c].rows, id)])
    else None
  }

  lemma {:induction false} PatchedWithout(rows: seq<Row>, patch: Row)
    requires Holds(rows, patch.id)
    ensures Without(Patched(rows, patch), patch.id) == Without(rows, patch.id)
    ensures Find(Patched(rows, patch), patch.id) == Find(rows, patch.id)
  {
    if rows[0].id == patch.id {
      assert Patched(rows, patch)[1..] == rows[1..];
    } else {
      PatchedWithout(rows[1..], patch);
      assert Patched(rows, patch)[1..] == Patched(rows[1..], patch);
    }
  }

  /** Every other session keeps its rows, their order and their group; so do drafts, focus and counts. */
  lemma {:induction false} UpsertTouchesOnlyItsRow(s: State, patch: Row, now: string)
    ensures var t := Upserted(s, patch, now);
      && Without(t.independent, patch.id) == Without(s.independent, patch.id)
      && CachesWithout(t.caches, patch.id) == CachesWithout(s.caches, patch.id)
      && t.(independent := s.independent, caches := s.caches) == s
  {
    var t := Upserted(s, patch, now);
    var holder, cwd := FindHolder(s.caches, patch.id), CwdOf(patch.fields);
    var node := FindCwd(s.caches, cwd);
    if Holds(s.independent, patch.id) {
      PatchedWithout(s.independent, patch);
    } else if holder < |s.caches| {
      PatchedWithout(s.caches[holder].rows, patch);
    } else if cwd == "" || cwd == s.homeCwd {
      assert t.independent[1..] == s.independent;
    } else if node < |s.caches| {
      assert t.caches[node].rows[1..] == s.caches[node].rows;
    }
    assert |t.caches| == |s.caches|;
    assert CachesWithout(t.caches, patch.id) == CachesWithout(s.caches, patch.id);
  }

  /** The defaults are filled in, a timestamp is there, and nothing the patch says is lost. */
  ghost predicate CompletedFrom(fields: Fields, patch: Fields) {
    && fields.Keys == patch.Keys + {"title", "cwd", "updatedAt"}
    && fields["updatedAt"] != Undefined
    && forall f :: f in patch && (f != "updatedAt" || patch[f] != Undefined) ==> fields[f] == patch[f]
  }

  lemma {:induction false} InsertedCompletes(patch: Row, cwd: string, now: string)
    ensures Inserted(patch, cwd, now).id == patch.id
    ensures CompletedFrom(Inserted(patch, cwd, now).fields, patch.fields)
  {
  }

  /** The upsert of a known session, told by its row. */
  lemma {:induction false} UpsertPatchesRow(s: State, patch: Row, now: string)
    requires RowOf(s, patch.id).Some?
    ensures RowOf(Upserted(s, patch, now), patch.id)
         == Some(Row(patch.id, RowOf(s, patch.id).value.fields + patch.fields))
  {
    var holder := FindHolder(s.caches, patch.id);
    if Holds(s.independent, patch.id) {
      PatchedWithout(s.independent, patch);
    } else {
      PatchedWithout(s.caches[holder].rows, patch);
      var t := Upserted(s, patch, now);
      assert Holds(t.caches[holder].rows, patch.id);
      assert FindHolder(t.caches, patch.id) == holder;
    }
  }

  /** A known session keeps the fields the patch does not name; an unseen one gets the defaults. */
  lemma {:induction false} UpsertWritesPatch(s: State, patch: Row, now: string)
    ensures var before, after := RowOf(s, patch.id), RowOf(Upserted(s, patch, now), patch.id);
      && (before.Some? ==> after == Some(Row(patch.id, before.value.fields + patch.fields)))
      && (before.None? ==> (after.Some? <==> HasPlace(s, patch)))
      && (before.None? && after.Some? ==> CompletedFrom(after.value.fields, patch.fields))
  {
    if RowOf(s, patch.id).Some? {
      UpsertPatchesRow(s, patch, now);
    } else {
      var cwd := CwdOf(patch.fields);
      var node := FindCwd(s.caches, cwd);
      if cwd == "" || cwd == s.homeCwd {
        InsertedCompletes(patch, s.homeCwd, now);
      } else if node < |s.caches| {
        InsertedCompletes(patch, cwd, now);
        var t := Upserted(s, patch, now);
        assert t.caches[node].rows[0] == Inserted(patch, cwd, now);
        assert Holds(t.caches[node].rows, patch.id) && Find(t.caches[node].rows, patch.id) == 0;
        assert FindHolder(t.caches, patch.id) == node;
      }
    }
  }

  // ---------- Where a row goes, and what else an operation leaves ----------

  ghost predicate Unseen(s: State, id: string) {
    !Holds(s.independent, id) && forall c :: 0 <= c < |s.caches| ==> !Holds(s.caches[c].rows, id)
  }

  function FieldOf(row: Row, field: string): Option<Value> {
    if field in row.fields then Some(row.fields[field]) else None
  }

  /**
    The row of a session not seen before: its id, what the patch says, and where that is silent the
    standard title, the directory it is listed under, and the time.
   */
  predicate NewRowOf(row: Row, patch: Row, cwd: string, now: string) {
    && row.id == patch.id
    && (FieldOf(patch, "title").None? ==> FieldOf(row, "title") == Some(Text("未命名会话")))
    && (FieldOf(patch, "cwd").None? ==> FieldOf(row, "cwd") == Some(Text(cwd)))
    && (FieldOf(patch, "updatedAt") in {None, Some(Undefined)} ==> FieldOf(row, "updatedAt") == Some(Text(now)))
    && (FieldOf(patch, "updatedAt") !in {None, Some(Undefined)} ==> FieldOf(row, "updatedAt") == FieldOf(patch, "updatedAt"))
    && (forall f :: f in patch.fields && f != "updatedAt" ==> FieldOf(row, f) == FieldOf(patch, f))
  }

  /** The session's directory is the inbox: none, or the home directory. */
  predicate InInbox(s: State, patch: Row) {
    CwdOf(patch.fields) == "" || CwdOf(patch.fields) == s.homeCwd
  }

  lemma {:induction false} UnseenIsNowhere(s: State, id: string)
    requires Unseen(s, id)
    ensures FindHolder(s.caches, id) == |s.caches|
  {
  }

  /** An unseen session of the inbox is put on top of the tasks, and no node changes. */
  lemma {:induction false} UnseenGoesToInbox(s: State, patch: Row, now: string)
    requires Unseen(s, patch.id) && InInbox(s, patch)
    ensures var t := Upserted(s, patch, now);
      && t.caches == s.caches
      && |t.independent| == |s.independent| + 1 && t.independent[1..] == s.independent
      && NewRowOf(t.independent[0], patch, s.homeCwd, now)
  {
    UnseenIsNowhere(s, patch.id);
  }

  /** An unseen session of a loaded node is put on top of that node's list, and nothing else changes. */
  lemma {:induction false} UnseenGoesToNode(s: State, patch: Row, now: string, c: nat)
    requires Unseen(s, patch.id) && !InInbox(s, patch)
    requires c < |s.caches| && s.caches[c].cwd == CwdOf(patch.fields)
    requires forall j :: 0 <= j < c ==> s.caches[j].cwd != CwdOf(patch.fields)
    ensures var t := Upserted(s, patch, now);
      && t.independent == s.independent && |t.caches| == |s.caches|
      && (forall j :: 0 <= j < |s.caches| && j != c ==> t.caches[j] == s.caches[j])
      && t.caches[c].cwd == s.caches[c].cwd
      && |t.caches[c].rows| == |s.caches[c].rows| + 1 && t.caches[c].rows[1..] == s.caches[c].rows
      && NewRowOf(t.caches[c].rows[0], patch, s.caches[c].cwd, now)
  {
    UnseenIsNowhere(s, patch.id);
  }

  /** An unseen session of a node that is not loaded changes nothing. */
  lemma {:induction false} UnseenOfClosedNode(s: State, patch: Row, now: string)
    requires Unseen(s, patch.id) && !InInbox(s, patch)
    requires forall c :: 0 <= c < |s.caches| ==> s.caches[c].cwd != CwdOf(patch.fields)
    ensures Upserted(s, patch, now) == s
  {
    UnseenIsNowhere(s, patch.id);
  }

  /** The same ids at the same places. */
  predicate SamePlaces(rows: seq<Row>, before: seq<Row>) {
    |rows| == |before| && forall i :: 0 <= i < |rows| ==> rows[i].id == before[i].id
  }

  /** A known session stays where it is, and so do all others: an upsert then moves no row. */
  lemma {:induction false} KnownStaysInPlace(s: State, patch: Row, now: string)
    requires !Unseen(s, patch.id)
    ensures var t := Upserted(s, patch, now);
      && SamePlaces(t.independent, s.independent) && |t.caches| == |s.caches|
      && forall c :: 0 <= c < |s.caches| ==> t.caches[c].cwd == s.caches[c].cwd && SamePlaces(t.caches[c].rows, s.caches[c].rows)
  {
  }

  /** Removal filters: a row goes if it is the session's, and the others keep their order. */
  lemma {:induction false} WithoutFirst(row: Row, rows: seq<Row>, id: string)
    ensures Without([row] + rows, id) == (if row.id == id then [] else [row]) + Without(rows, id)
    ensures Without([], id) == []
  {
    assert ([row] + rows)[1..] == rows;
  }

  /** What a removal forgets and what it keeps besides the rows. */
  lemma {:induction false} RemoveForgets(s: State, id: string, other: string)
    ensures var t := Removed(s, id);
      && id !in t.drafts && t.current != Some(id) && t.homeCwd == s.homeCwd
      && (other != id ==> (other in t.drafts <==> other in s.drafts))
      && (other != id && other in s.drafts ==> t.drafts[other] == s.drafts[other])
      && (s.current != Some(id) ==> t.current == s.current)
      && (forall c :: 0 <= c < |s.caches| ==> t.caches[c].cwd == s.caches[c].cwd)
  {
  }

  /** A row and its successor under a migration: only the id may differ, and only for the session. */
  predicate RowMoved(after: Row, before: Row, oldId: string, newId: string) {
    after.fields == before.fields && after.id == (if before.id == oldId then newId else before.id)
  }

  predicate RowsMoved(after: seq<Row>, before: seq<Row>, oldId: string, newId: string) {
    |after| == |before| && forall i :: 0 <= i < |before| ==> RowMoved(after[i], before[i], oldId, newId)
  }

  /** A migration leaves every row where it is with its fields, moves the draft, and lets the focus follow. */
  lemma {:induction false} MigrateInPlace(s: State, oldId: string, newId: string, other: string)
    requires oldId != newId
    ensures var t := Migrated(s, oldId, newId);
      && RowsMoved(t.independent, s.independent, oldId, newId) && |t.caches| == |s.caches|
      && (forall c :: 0 <= c < |s.caches| ==>
            t.caches[c].cwd == s.caches[c].cwd && RowsMoved(t.caches[c].rows, s.caches[c].rows, oldId, newId))
      && t.workspaces == s.workspaces && t.homeCwd == s.homeCwd && oldId !in t.drafts
      && (oldId in s.drafts ==> newId in t.drafts && t.drafts[newId] == s.drafts[oldId])
      && (other != oldId && other in s.drafts && !(other == newId && oldId in s.drafts) ==>
            other in t.drafts && t.drafts[other] == s.drafts[other])
      && (other !in s.drafts && other != newId ==> other !in t.drafts)
      && t.current == (if s.current == Some(oldId) then Some(newId) else s.current)
  {
  }

  function DraftOf(s: State, id: string): string {
    if id in s.drafts then s.drafts[id] else ""
  }

  /** A draft is read back as it was set, cleared ones as empty, and no other draft changes. */
  lemma {:induction false} DraftsReadBack(s: State, id: string, text: string, other: string)
    ensures DraftOf(Step(s, SetDraft(id, text)), id) == text
    ensures DraftOf(Step(s, ClearDraft(id)), id) == ""
    ensures other != id ==>
      DraftOf(Step(s, SetDraft(id, text)), other) == DraftOf(Step(s, ClearDraft(id)), other) == DraftOf(s, other)
  {
  }
}
