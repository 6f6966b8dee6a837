/**
  The sidebar session list: src/stores/sessions-store.ts.

  A new chat starts under a provisional id, is edited under it, and is re-keyed once the
  backend has answered.  The store's operations are given as functions on a state value, and
  class `SessionsStore` carries them out the way the store does.  The main result is that
  re-keying late cannot be told from re-keying early exactly when the real id is fresh.
 */
module Sessions {
  import opened Common

  /** A property value of a session summary; `Undefined` is an own property set to undefined. */
  datatype Value = Undefined | Text(text: string) | Flag(flag: bool)
  type Fields = map<string, Value>
  /** A session summary: its id, and its other own properties. */
  datatype Row = Row(id: string, fields: Fields)
  /** The loaded sessions of one expanded workspace node. */
  datatype Cache = Cache(cwd: string, rows: seq<Row>)
  datatype Workspace = Workspace(cwd: string, sessionCount: int)
  datatype State = State(
    independent: seq<Row>,
    workspaces: seq<Workspace>,
    caches: seq<Cache>,
    homeCwd: string,
    current: Option<string>,
    drafts: map<string, string>
  )

  datatype Op =
    | Upsert(patch: Row, now: string)
    | Remove(id: string)
    | SetDraft(id: string, text: string)
    | ClearDraft(id: string)
    | RenameDraft(oldId: string, newId: string)
    | SetCurrent(focus: Option<string>)
    | Migrate(oldId: string, newId: string)
    | SetIndependent(rows: seq<Row>)
    | SetWorkspaceSessions(cwd: string, rows: seq<Row>)
    | SetWorkspaces(workspaces: seq<Workspace>)
    | SetHomeCwd(cwd: string)

  // ---------- Operations on lists of rows ----------

  /** The index of the first row with the given id, or the length when there is none. */
  function Find(rows: seq<Row>, id: string): (i: nat)
    ensures i <= |rows|
    ensures i < |rows| ==> rows[i].id == id
    ensures forall j :: 0 <= j < i ==> rows[j].id != id
  {
    if rows == [] || rows[0].id == id then 0 else 1 + Find(rows[1..], id)
  }

  predicate Holds(rows: seq<Row>, id: string) {
    Find(rows, id) < |rows|
  }

  /** Spreads the patch over the first row with the same id. */
  function Patched(rows: seq<Row>, patch: Row): seq<Row>
    requires Holds(rows, patch.id)
  {
    var i := Find(rows, patch.id);
    rows[i := Row(rows[i].id, rows[i].fields + patch.fields)]
  }

  function Without(rows: seq<Row>, id: string): seq<Row> {
    if rows == [] then []
    else if rows[0].id == id then Without(rows[1..], id)
    else [rows[0]] + Without(rows[1..], id)
  }

  function RenamedId(x: string, oldId: string, newId: string): string {
    if x == oldId then newId else x
  }

  function RenamedRow(row: Row, oldId: string, newId: string): Row {
    row.(id := RenamedId(row.id, oldId, newId))
  }

  function RenamedRows(rows: seq<Row>, oldId: string, newId: string): (r: seq<Row>)
    ensures |r| == |rows|
  {
    seq(|rows|, i requires 0 <= i < |rows| => RenamedRow(rows[i], oldId, newId))
  }

  // ---------- Operations on the workspace caches ----------

  /** The index of the first cache holding the session, or the length. */
  function FindHolder(caches: seq<Cache>, id: string): (c: nat)
    ensures c <= |caches|
    ensures c < |caches| ==> Holds(caches[c].rows, id)
    ensures forall j :: 0 <= j < c ==> !Holds(caches[j].rows, id)
  {
    if caches == [] || Holds(caches[0].rows, id) then 0 else 1 + FindHolder(caches[1..], id)
  }

  /** The index of the cache of a directory, or the length. */
  function FindCwd(caches: seq<Cache>, cwd: string): (c: nat)
    ensures c <= |caches|
    ensures c < |caches| ==> caches[c].cwd == cwd
    ensures forall j :: 0 <= j < c ==> caches[j].cwd != cwd
  {
    if caches == [] || caches[0].cwd == cwd then 0 else 1 + FindCwd(caches[1..], cwd)
  }

  function RenamedCache(cache: Cache, oldId: string, newId: string): Cache {
    Cache(cache.cwd, RenamedRows(cache.rows, oldId, newId))
  }

  function RenamedCaches(caches: seq<Cache>, oldId: string, newId: string): (r: seq<Cache>)
    ensures |r| == |caches|
  {
    seq(|caches|, c requires 0 <= c < |caches| => RenamedCache(caches[c], oldId, newId))
  }

  function CachesWithout(caches: seq<Cache>, id: string): (r: seq<Cache>)
    ensures |r| == |caches|
  {
    seq(|caches|, c requires 0 <= c < |caches| => Cache(caches[c].cwd, Without(caches[c].rows, id)))
  }

  /** The directory of the last cache that holds the session. */
  function LastHolder(caches: seq<Cache>, id: string): Option<string> {
    if caches == [] then None
    else
      var last := caches[|caches| - 1];
      if Holds(last.rows, id) then Some(last.cwd) else LastHolder(caches[..|caches| - 1], id)
  }

  /** One session fewer in every node of the given directory, never below zero. */
  function Lowered(workspaces: seq<Workspace>, cwd: Option<string>): (r: seq<Workspace>)
    ensures |r| == |workspaces|
  {
    seq(|workspaces|, k requires 0 <= k < |workspaces| =>
      var w := workspaces[k];
      if cwd == Some(w.cwd) then w.(sessionCount := if w.sessionCount - 1 > 0 then w.sessionCount - 1 else 0)
      else w)
  }

  // ---------- The store's operations ----------

  function CwdOf(fields: Fields): string {
    if "cwd" in fields && fields["cwd"].Text? then fields["cwd"].text else ""
  }

  /** A row for a session the store has not seen: defaults, then the patch, then a timestamp. */
  function Inserted(patch: Row, cwd: string, now: string): Row {
    var stamp := if "updatedAt" in patch.fields && patch.fields["updatedAt"] != Undefined
                 then patch.fields["updatedAt"] else Text(now);
    Row(patch.id, (map["title" := Text("未命名会话"), "cwd" := Text(cwd)] + patch.fields)["updatedAt" := stamp])
  }

  function Upserted(s: State, patch: Row, now: string): State {
    var holder := FindHolder(s.caches, patch.id);
    var cwd := CwdOf(patch.fields);
    var node := FindCwd(s.caches, cwd);
    if Holds(s.independent, patch.id) then
      s.(independent := Patched(s.independent, patch))
    else if holder < |s.caches| then
      s.(caches := s.caches[holder := Cache(s.caches[holder].cwd, Patched(s.caches[holder].rows, patch))])
    else if cwd == "" || cwd == s.homeCwd then
      s.(independent := [Inserted(patch, s.homeCwd, now)] + s.independent)
    else if node < |s.caches| then
      s.(caches := s.caches[node := Cache(cwd, [Inserted(patch, cwd, now)] + s.caches[node].rows)])
    else
      s
  }

  function Removed(s: State, id: string): State {
    s.(independent := Without(s.independent, id),
       caches := CachesWithout(s.caches, id),
       workspaces := Lowered(s.workspaces, LastHolder(s.caches, id)),
       drafts := s.drafts - {id},
       current := if s.current == Some(id) then None else s.current)
  }

  function Drafted(s: State, id: string, text: string): State {
    s.(drafts := if text == "" then s.drafts - {id} else s.drafts[id := text])
  }

  function MovedDraft(drafts: map<string, string>, oldId: string, newId: string): map<string, string> {
    if oldId != newId && oldId in drafts then (drafts - {oldId})[newId := drafts[oldId]] else drafts
  }

  function Migrated(s: State, oldId: string, newId: string): State {
    if oldId == newId then s
    else
      s.(independent := RenamedRows(s.independent, oldId, newId),
         caches := RenamedCaches(s.caches, oldId, newId),
         drafts := MovedDraft(s.drafts, oldId, newId),
         current := RenamedFocus(s.current, oldId, newId))
  }

  function RenamedFocus(focus: Option<string>, oldId: string, newId: string): Option<string> {
    if focus == Some(oldId) then Some(newId) else focus
  }

  function WithCache(caches: seq<Cache>, cwd: string, rows: seq<Row>): seq<Cache> {
    var c := FindCwd(caches, cwd);
    if c < |caches| then caches[c := Cache(cwd, rows)] else caches + [Cache(cwd, rows)]
  }

  function Step(s: State, op: Op): State {
    match op
    case Upsert(patch, now) => Upserted(s, patch, now)
    case Remove(id) => Removed(s, id)
    case SetDraft(id, text) => Drafted(s, id, text)
    case ClearDraft(id) => s.(drafts := s.drafts - {id})
    case RenameDraft(a, b) => s.(drafts := MovedDraft(s.drafts, a, b))
    case SetCurrent(focus) => s.(current := focus)
    case Migrate(a, b) => Migrated(s, a, b)
    case SetIndependent(rows) => s.(independent := rows)
    case SetWorkspaceSessions(cwd, rows) => s.(caches := WithCache(s.caches, cwd, rows))
    case SetWorkspaces(workspaces) => s.(workspaces := workspaces)
    case SetHomeCwd(cwd) => s.(homeCwd := cwd)
  }

  function Run(s: State, ops: seq<Op>): State
    decreases |ops|
  {
    if ops == [] then s else Run(Step(s, ops[0]), ops[1..])
  }

  // ---------- Late renaming is invisible ----------

  /** The same operation, addressed to the new id wherever it was addressed to the old one. */
  function RenamedOp(op: Op, oldId: string, newId: string): Op {
    match op
    case Upsert(patch, now) => Upsert(RenamedRow(patch, oldId, newId), now)
    case Remove(id) => Remove(RenamedId(id, oldId, newId))
    case SetDraft(id, text) => SetDraft(RenamedId(id, oldId, newId), text)
    case ClearDraft(id) => ClearDraft(RenamedId(id, oldId, newId))
    case RenameDraft(a, b) => RenameDraft(RenamedId(a, oldId, newId), RenamedId(b, oldId, newId))
    case SetCurrent(focus) => SetCurrent(RenamedFocus(focus, oldId, newId))
    case Migrate(a, b) => Migrate(RenamedId(a, oldId, newId), RenamedId(b, oldId, newId))
    case SetIndependent(rows) => SetIndependent(RenamedRows(rows, oldId, newId))
    case SetWorkspaceSessions(cwd, rows) => SetWorkspaceSessions(cwd, RenamedRows(rows, oldId, newId))
    case SetWorkspaces(_) => op
    case SetHomeCwd(_) => op
  }

  function RenamedOps(ops: seq<Op>, oldId: string, newId: string): seq<Op> {
    if ops == [] then [] else [RenamedOp(ops[0], oldId, newId)] + RenamedOps(ops[1..], oldId, newId)
  }

  /** No row, draft or focus carries the id. */
  ghost predicate Fresh(s: State, id: string) {
    && !Holds(s.independent, id)
    && (forall c :: 0 <= c < |s.caches| ==> !Holds(s.caches[c].rows, id))
    && id !in s.drafts
    && s.current != Some(id)
  }

  predicate Avoids(op: Op, id: string) {
    match op
    case Upsert(patch, _) => patch.id != id
    case Remove(x) => x != id
    case SetDraft(x, _) => x != id
    case ClearDraft(x) => x != id
    case RenameDraft(a, b) => a != id && b != id
    case SetCurrent(focus) => focus != Some(id)
    case Migrate(a, b) => a != id && b != id
    case SetIndependent(rows) => !Holds(rows, id)
    case SetWorkspaceSessions(_, rows) => !Holds(rows, id)
    case SetWorkspaces(_) => true
    case SetHomeCwd(_) => true
  }

  ghost predicate AllAvoid(ops: seq<Op>, id: string) {
    forall k :: 0 <= k < |ops| ==> Avoids(ops[k], id)
  }

  lemma {:induction false} HoldsIff(rows: seq<Row>, id: string)
    ensures Holds(rows, id) <==> exists j :: 0 <= j < |rows| && rows[j].id == id
  {
    if Holds(rows, id) {
      assert rows[Find(rows, id)].id == id;
    }
  }

  lemma {:induction false} FindRenamed(rows: seq<Row>, id: string, oldId: string, newId: string)
    requires !Holds(rows, newId) && id != newId
    ensures Find(RenamedRows(rows, oldId, newId), RenamedId(id, oldId, newId)) == Find(rows, id)
  {
    HoldsIff(rows, newId);
    var r := RenamedRows(rows, oldId, newId);
    var i := Find(rows, id);
    var j := Find(r, RenamedId(id, oldId, newId));
    if i < |rows| {
      assert r[i].id == RenamedId(id, oldId, newId);
    }
    if j < |rows| {
      assert rows[j].id == id;
    }
  }

  lemma {:induction false} WithoutRenamed(rows: seq<Row>, id: string, oldId: string, newId: string)
    requires !Holds(rows, newId) && id != newId
    ensures Without(RenamedRows(rows, oldId, newId), RenamedId(id, oldId, newId))
         == RenamedRows(Without(rows, id), oldId, newId)
  {
    if rows != [] {
      HoldsIff(rows, newId);
      HoldsIff(rows[1..], newId);
      assert rows[0].id != newId;
      WithoutRenamed(rows[1..], id, oldId, newId);
      assert RenamedRows(rows, oldId, newId)[1..] == RenamedRows(rows[1..], oldId, newId);
      assert RenamedRows([rows[0]] + Without(rows[1..], id), oldId, newId)
          == [RenamedRow(rows[0], oldId, newId)] + RenamedRows(Without(rows[1..], id), oldId, newId);
    }
  }

  lemma {:induction false} PatchedRenamed(rows: seq<Row>, patch: Row, oldId: string, newId: string)
    requires Holds(rows, patch.id) && !Holds(rows, newId) && patch.id != newId
    ensures Holds(RenamedRows(rows, oldId, newId), RenamedId(patch.id, oldId, newId))
    ensures Patched(RenamedRows(rows, oldId, newId), RenamedRow(patch, oldId, newId))
         == RenamedRows(Patched(rows, patch), oldId, newId)
  {
    FindRenamed(rows, patch.id, oldId, newId);
  }

  lemma {:induction false} FindHolderRenamed(caches: seq<Cache>, id: string, oldId: string, newId: string)
    requires forall c :: 0 <= c < |caches| ==> !Holds(caches[c].rows, newId)
    requires id != newId
    ensures FindHolder(RenamedCaches(caches, oldId, newId), RenamedId(id, oldId, newId)) == FindHolder(caches, id)
  {
    var r := RenamedCaches(caches, oldId, newId);
    forall c | 0 <= c < |caches|
      ensures Holds(r[c].rows, RenamedId(id, oldId, newId)) == Holds(caches[c].rows, id)
    {
      FindRenamed(caches[c].rows, id, oldId, newId);
    }
    var i, j := FindHolder(caches, id), FindHolder(r, RenamedId(id, oldId, newId));
    assert i < |caches| ==> Holds(r[i].rows, RenamedId(id, oldId, newId));
    assert j < |caches| ==> Holds(caches[j].rows, id);
  }

  lemma {:induction false} FindCwdRenamed(caches: seq<Cache>, cwd: string, oldId: string, newId: string)
    ensures FindCwd(RenamedCaches(caches, oldId, newId), cwd) == FindCwd(caches, cwd)
  {
    var r := RenamedCaches(caches, oldId, newId);
    var i, j := FindCwd(caches, cwd), FindCwd(r, cwd);
    assert i < |caches| ==> r[i].cwd == cwd;
    assert j < |caches| ==> caches[j].cwd == cwd;
  }

  lemma {:induction false} LastHolderRenamed(caches: seq<Cache>, id: string, oldId: string, newId: string)
    requires forall c :: 0 <= c < |caches| ==> !Holds(caches[c].rows, newId)
    requires id != newId
    ensures LastHolder(RenamedCaches(caches, oldId, newId), RenamedId(id, oldId, newId)) == LastHolder(caches, id)
  {
    if caches != [] {
      var n := |caches| - 1;
      var r := RenamedCaches(caches, oldId, newId);
      assert Holds(r[n].rows, RenamedId(id, oldId, newId)) == Holds(caches[n].rows, id) by {
        FindRenamed(caches[n].rows, id, oldId, newId);
      }
      assert r[..n] == RenamedCaches(caches[..n], oldId, newId);
      LastHolderRenamed(caches[..n], id, oldId, newId);
    }
  }

  lemma {:induction false} InsertRenamed(rows: seq<Row>, patch: Row, cwd: string, now: string, oldId: string, newId: string)
    ensures RenamedRows([Inserted(patch, cwd, now)] + rows, oldId, newId)
         == [Inserted(RenamedRow(patch, oldId, newId), cwd, now)] + RenamedRows(rows, oldId, newId)
  {
  }

  lemma {:induction false} CacheUpdateRenamed(caches: seq<Cache>, c: nat, next: Cache, oldId: string, newId: string)
    requires c < |caches|
    ensures RenamedCaches(caches[c := next], oldId, newId)
         == RenamedCaches(caches, oldId, newId)[c := RenamedCache(next, oldId, newId)]
  {
  }

  /** An upsert commutes with renaming to an id that neither the state nor the patch uses. */
  lemma {:induction false} UpsertCommutes(s: State, patch: Row, now: string, oldId: string, newId: string)
    requires oldId != newId && Fresh(s, newId) && patch.id != newId
    ensures Upserted(Migrated(s, oldId, newId), RenamedRow(patch, oldId, newId), now)
         == Migrated(Upserted(s, patch, now), oldId, newId)
  {
    FindRenamed(s.independent, patch.id, oldId, newId);
    FindHolderRenamed(s.caches, patch.id, oldId, newId);
    var cwd := CwdOf(patch.fields);
    FindCwdRenamed(s.caches, cwd, oldId, newId);
    var holder, node := FindHolder(s.caches, patch.id), FindCwd(s.caches, cwd);
    if Holds(s.independent, patch.id) {
      PatchedRenamed(s.independent, patch, oldId, newId);
    } else if holder < |s.caches| {
      PatchedRenamed(s.caches[holder].rows, patch, oldId, newId);
      CacheUpdateRenamed(s.caches, holder, Cache(s.caches[holder].cwd, Patched(s.caches[holder].rows, patch)), oldId, newId);
    } else if cwd == "" || cwd == s.homeCwd {
      InsertRenamed(s.independent, patch, s.homeCwd, now, oldId, newId);
    } else if node < |s.caches| {
      InsertRenamed(s.caches[node].rows, patch, cwd, now, oldId, newId);
      CacheUpdateRenamed(s.caches, node, Cache(cwd, [Inserted(patch, cwd, now)] + s.caches[node].rows), oldId, newId);
    }
  }

  lemma {:induction false} RemoveCommutes(s: State, id: string, oldId: string, newId: string)
    requires oldId != newId && Fresh(s, newId) && id != newId
    ensures Removed(Migrated(s, oldId, newId), RenamedId(id, oldId, newId))
         == Migrated(Removed(s, id), oldId, newId)
  {
    var l := Removed(Migrated(s, oldId, newId), RenamedId(id, oldId, newId));
    var r := Migrated(Removed(s, id), oldId, newId);
    WithoutRenamed(s.independent, id, oldId, newId);
    LastHolderRenamed(s.caches, id, oldId, newId);
    forall c | 0 <= c < |s.caches|
      ensures l.caches[c] == r.caches[c]
    {
      WithoutRenamed(s.caches[c].rows, id, oldId, newId);
    }
    assert l.caches == r.caches;
    assert l.drafts == r.drafts;
  }

  /** Two renamings in a row: rows renamed a to b, seen through the renaming old to new. */
  lemma {:induction false} RenamedTwice(rows: seq<Row>, a: string, b: string, oldId: string, newId: string)
    requires !Holds(rows, newId) && a != newId && b != newId
    ensures RenamedRows(RenamedRows(rows, oldId, newId), RenamedId(a, oldId, newId), RenamedId(b, oldId, newId))
         == RenamedRows(RenamedRows(rows, a, b), oldId, newId)
  {
    HoldsIff(rows, newId);
  }

  lemma {:induction false} MigrateCommutes(s: State, a: string, b: string, oldId: string, newId: string)
    requires oldId != newId && Fresh(s, newId) && a != newId && b != newId
    ensures Migrated(Migrated(s, oldId, newId), RenamedId(a, oldId, newId), RenamedId(b, oldId, newId))
         == Migrated(Migrated(s, a, b), oldId, newId)
  {
    if a != b {
      var l := Migrated(Migrated(s, oldId, newId), RenamedId(a, oldId, newId), RenamedId(b, oldId, newId));
      var r := Migrated(Migrated(s, a, b), oldId, newId);
      RenamedTwice(s.independent, a, b, oldId, newId);
      forall c | 0 <= c < |s.caches|
        ensures l.caches[c] == r.caches[c]
      {
        RenamedTwice(s.caches[c].rows, a, b, oldId, newId);
      }
      assert l.caches == r.caches;
      MoveDraftCommutes(s.drafts, a, b, oldId, newId);
    }
  }

  lemma {:induction false} MoveDraftCommutes(drafts: map<string, string>, a: string, b: string, oldId: string, newId: string)
    requires newId !in drafts && a != newId && b != newId
    ensures MovedDraft(MovedDraft(drafts, oldId, newId), RenamedId(a, oldId, newId), RenamedId(b, oldId, newId))
         == MovedDraft(MovedDraft(drafts, a, b), oldId, newId)
  {
  }

  lemma {:induction false} WithCacheRenamed(caches: seq<Cache>, cwd: string, rows: seq<Row>, oldId: string, newId: string)
    ensures WithCache(RenamedCaches(caches, oldId, newId), cwd, RenamedRows(rows, oldId, newId))
         == RenamedCaches(WithCache(caches, cwd, rows), oldId, newId)
  {
    FindCwdRenamed(caches, cwd, oldId, newId);
  }

  lemma {:induction false} StepCommutes(s: State, op: Op, oldId: string, newId: string)
    requires oldId != newId && Fresh(s, newId) && Avoids(op, newId)
    ensures Step(Migrated(s, oldId, newId), RenamedOp(op, oldId, newId)) == Migrated(Step(s, op), oldId, newId)
  {
    var l := Step(Migrated(s, oldId, newId), RenamedOp(op, oldId, newId));
    var r := Migrated(Step(s, op), oldId, newId);
    match op
    case Upsert(patch, now) => UpsertCommutes(s, patch, now, oldId, newId);
    case Remove(id) => RemoveCommutes(s, id, oldId, newId);
    case SetDraft(id, text) => assert l.drafts == r.drafts;
    case ClearDraft(id) => assert l.drafts == r.drafts;
    case RenameDraft(a, b) => MoveDraftCommutes(s.drafts, a, b, oldId, newId);
    case SetCurrent(_) =>
    case Migrate(a, b) => MigrateCommutes(s, a, b, oldId, newId);
    case SetIndependent(_) =>
    case SetWorkspaceSessions(cwd, rows) => WithCacheRenamed(s.caches, cwd, rows, oldId, newId);
    case SetWorkspaces(_) =>
    case SetHomeCwd(_) =>
  }

  lemma {:induction false} UpsertKeepsFresh(s: State, patch: Row, now: string, id: string)
    requires Fresh(s, id) && patch.id != id
    ensures Fresh(Upserted(s, patch, now), id)
  {
    var t := Upserted(s, patch, now);
    HoldsIff(s.independent, id);
    HoldsIff(t.independent, id);
    forall c | 0 <= c < |s.caches| ensures !Holds(t.caches[c].rows, id) {
      HoldsIff(s.caches[c].rows, id);
      HoldsIff(t.caches[c].rows, id);
    }
  }

  lemma {:induction false} StepKeepsFresh(s: State, op: Op, id: string)
    requires Fresh(s, id) && Avoids(op, id)
    ensures Fresh(Step(s, op), id)
  {
    match op
    case Upsert(patch, now) => UpsertKeepsFresh(s, patch, now, id);
    case Remove(x) =>
      WithoutHolds(s.independent, x, id);
      forall c | 0 <= c < |s.caches| ensures !Holds(Without(s.caches[c].rows, x), id) {
        WithoutHolds(s.caches[c].rows, x, id);
      }
    case Migrate(a, b) =>
      if a != b {
        RenamedHolds(s.independent, a, b, id);
        forall c | 0 <= c < |s.caches| ensures !Holds(RenamedRows(s.caches[c].rows, a, b), id) {
          RenamedHolds(s.caches[c].rows, a, b, id);
        }
      }
    case _ =>
  }

  lemma {:induction false} WithoutHolds(rows: seq<Row>, x: string, id: string)
    ensures Holds(Without(rows, x), id) <==> (id != x && Holds(rows, id))
  {
    if rows != [] {
      WithoutHolds(rows[1..], x, id);
    }
  }

  lemma {:induction false} RenamedHolds(rows: seq<Row>, a: string, b: string, id: string)
    requires a != b
    ensures Holds(RenamedRows(rows, a, b), id) <==> (id != a && (Holds(rows, id) || (id == b && Holds(rows, a))))
  {
    var r := RenamedRows(rows, a, b);
    HoldsIff(rows, id);
    HoldsIff(rows, a);
    HoldsIff(r, id);
    forall j | 0 <= j < |rows| ensures r[j].id == RenamedId(rows[j].id, a, b) { }
    if Holds(rows, id) && id != a {
      assert r[Find(rows, id)].id == id;
    }
    if Holds(rows, a) {
      assert r[Find(rows, a)].id == b;
    }
  }

  /** Running any operations and then migrating is migrating first and running them renamed. */
  lemma {:induction false} LateRenameInvisible(s: State, ops: seq<Op>, oldId: string, newId: string)
    requires oldId != newId && Fresh(s, newId) && AllAvoid(ops, newId)
    ensures Run(Migrated(s, oldId, newId), RenamedOps(ops, oldId, newId)) == Migrated(Run(s, ops), oldId, newId)
    decreases |ops|
  {
    if ops != [] {
      assert Avoids(ops[0], newId);
      StepCommutes(s, ops[0], oldId, newId);
      StepKeepsFresh(s, ops[0], newId);
      LateRenameInvisible(Step(s, ops[0]), ops[1..], oldId, newId);
    }
  }

  ghost predicate RenameInvisible(s: State, oldId: string, newId: string) {
    forall ops: seq<Op> | AllAvoid(ops, newId) ::
      Run(Migrated(s, oldId, newId), RenamedOps(ops, oldId, newId)) == Migrated(Run(s, ops), oldId, newId)
  }

  /**
    Late renaming is invisible to every run exactly when the new id is fresh.  When it is not,
    removing the provisional session tells the two orders apart.
   */
  lemma {:induction false} LateRenameInvisibleIffFresh(s: State, oldId: string, newId: string)
    requires oldId != newId
    ensures RenameInvisible(s, oldId, newId) <==> Fresh(s, newId)
  {
    if Fresh(s, newId) {
      forall ops: seq<Op> | AllAvoid(ops, newId)
        ensures Run(Migrated(s, oldId, newId), RenamedOps(ops, oldId, newId)) == Migrated(Run(s, ops), oldId, newId)
      {
        LateRenameInvisible(s, ops, oldId, newId);
      }
    } else {
      var ops := [Remove(oldId)];
      assert AllAvoid(ops, newId);
      RemoveTellsOrdersApart(s, oldId, newId);
      assert RenamedOps(ops, oldId, newId) == [Remove(newId)];
      assert forall t: State :: Run(t, [Remove(newId)]) == Removed(t, newId) by {
        forall t: State ensures Run(t, [Remove(newId)]) == Removed(t, newId) {
          assert [Remove(newId)][1..] == [];
        }
      }
      assert Run(s, ops) == Removed(s, oldId) by { assert ops[1..] == []; }
    }
  }

  lemma {:induction false} RemoveTellsOrdersApart(s: State, oldId: string, newId: string)
    requires oldId != newId && !Fresh(s, newId)
    ensures Removed(Migrated(s, oldId, newId), newId) != Migrated(Removed(s, oldId), oldId, newId)
  {
    var l := Removed(Migrated(s, oldId, newId), newId);
    var t := Removed(s, oldId);
    var r := Migrated(t, oldId, newId);
    if Holds(s.independent, newId) {
      WithoutHolds(s.independent, oldId, newId);
      RenamedHolds(t.independent, oldId, newId, newId);
      WithoutHolds(Migrated(s, oldId, newId).independent, newId, newId);
    } else if c :| 0 <= c < |s.caches| && Holds(s.caches[c].rows, newId) {
      WithoutHolds(s.caches[c].rows, oldId, newId);
      RenamedHolds(t.caches[c].rows, oldId, newId, newId);
      WithoutHolds(Migrated(s, oldId, newId).caches[c].rows, newId, newId);
      assert Holds(r.caches[c].rows, newId) && !Holds(l.caches[c].rows, newId);
    } else if newId in s.drafts {
      assert newId in r.drafts && newId !in l.drafts;
    } else {
      assert r.current == Some(newId) && l.current != Some(newId);
    }
  }
}
