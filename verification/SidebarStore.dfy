/** The store of src/stores/sessions-store.ts, stepping through its groups as the store does. */
module SidebarStore {
  import opened Common
  import opened Sessions

  class SessionsStore {
    var independent: seq<Row>
    var workspaces: seq<Workspace>
    var caches: seq<Cache>
    var homeCwd: string
    var current: Option<string>
    var drafts: map<string, string>

    ghost function Now(): State
      reads this
    {
      State(independent, workspaces, caches, homeCwd, current, drafts)
    }

    constructor ()
      ensures Now() == State([], [], [], "", None, map[])
    {
      independent, workspaces, caches, homeCwd, current, drafts := [], [], [], "", None, map[];
    }

    method Upsert(patch: Row, now: string)
      modifies this
      ensures Now() == Upserted(old(Now()), patch, now)
    {
      var id := patch.id;
      var i := Find(independent, id);
      if i < |independent| {
        independent := independent[i := Row(independent[i].id, independent[i].fields + patch.fields)];
        return;
      }
      for c := 0 to |caches|
        invariant Now() == old(Now())
        invariant forall j :: 0 <= j < c ==> !Holds(caches[j].rows, id)
      {
        var rows := caches[c].rows;
        var w := Find(rows, id);
        if w < |rows| {
          assert c == FindHolder(caches, id);
          caches := caches[c := Cache(caches[c].cwd, rows[w := Row(rows[w].id, rows[w].fields + patch.fields)])];
          return;
        }
      }
      var cwd := CwdOf(patch.fields);
      if cwd == "" || cwd == homeCwd {
        independent := [Inserted(patch, homeCwd, now)] + independent;
        return;
      }
      var node := FindCwd(caches, cwd);
      if node < |caches| {
        caches := caches[node := Cache(cwd, [Inserted(patch, cwd, now)] + caches[node].rows)];
      }
    }

    method Remove(id: string)
      modifies this
      ensures Now() == Removed(old(Now()), id)
    {
      independent := Without(independent, id);
      var removedCwd: Option<string> := None;
      var next: seq<Cache> := [];
      for c := 0 to |caches|
        invariant caches == old(caches) && workspaces == old(workspaces) && homeCwd == old(homeCwd)
        invariant current == old(current) && drafts == old(drafts)
        invariant independent == Without(old(independent), id)
        invariant next == CachesWithout(caches[..c], id)
        invariant removedCwd == LastHolder(caches[..c], id)
      {
        var kept := Without(caches[c].rows, id);
        next := next + [Cache(caches[c].cwd, kept)];
        WithoutShortens(caches[c].rows, id);
        if |kept| != |caches[c].rows| {
          removedCwd := Some(caches[c].cwd);
        }
        assert caches[..c + 1][..c] == caches[..c];
      }
      assert caches[..|caches|] == caches;
      caches := next;
      if removedCwd.Some? {
        workspaces := Lowered(workspaces, removedCwd);
      } else {
        assert Lowered(workspaces, removedCwd) == workspaces;
      }
      drafts := drafts - {id};
      if current == Some(id) {
        current := None;
      }
    }

    method MigrateSession(oldId: string, newId: string)
      modifies this
      ensures Now() == Migrated(old(Now()), oldId, newId)
    {
      if oldId == newId {
        return;
      }
      var touched := Holds(independent, oldId);
      var renamed := RenamedRows(independent, oldId, newId);
      UntouchedRows(independent, oldId, newId);
      var next: seq<Cache> := [];
      for c := 0 to |caches|
        invariant Now() == old(Now())
        invariant next == RenamedCaches(caches[..c], oldId, newId)
        invariant !touched ==> renamed == independent && next == caches[..c]
      {
        var rows := RenamedRows(caches[c].rows, oldId, newId);
        UntouchedRows(caches[c].rows, oldId, newId);
        touched := touched || Holds(caches[c].rows, oldId);
        next := next + [Cache(caches[c].cwd, rows)];
      }
      assert caches[..|caches|] == caches;
      var moved, focus := drafts, current;
      if oldId in drafts {
        touched := true;
        moved := (drafts - {oldId})[newId := drafts[oldId]];
      }
      if current == Some(oldId) {
        touched := true;
        focus := Some(newId);
      }
      if touched {
        independent, caches, drafts, current := renamed, next, moved, focus;
      }
    }

    method SetDraft(id: string, text: string)
      modifies this
      ensures Now() == Drafted(old(Now()), id, text)
    {
      if text == "" {
        ClearDraft(id);
      } else if !(id in drafts && drafts[id] == text) {
        drafts := drafts[id := text];
      }
    }

    method ClearDraft(id: string)
      modifies this
      ensures Now() == Step(old(Now()), Sessions.ClearDraft(id))
    {
      if id in drafts {
        drafts := drafts - {id};
      }
    }

    method RenameDraft(oldId: string, newId: string)
      modifies this
      ensures Now() == Step(old(Now()), Sessions.RenameDraft(oldId, newId))
    {
      if oldId != newId && oldId in drafts {
        var moved := drafts[oldId];
        drafts := drafts - {oldId};
        drafts := drafts[newId := moved];
      }
    }

    method SetCurrent(focus: Option<string>)
      modifies this
      ensures Now() == Step(old(Now()), Sessions.SetCurrent(focus))
    {
      current := focus;
    }
  }

  /** Filtering drops a row exactly when the session has one, which is how removal notices it. */
  lemma {:induction false} WithoutShortens(rows: seq<Row>, id: string)
    ensures |Without(rows, id)| <= |rows|
    ensures |Without(rows, id)| != |rows| <==> Holds(rows, id)
  {
    if rows != [] {
      WithoutShortens(rows[1..], id);
    }
  }

  lemma {:induction false} UntouchedRows(rows: seq<Row>, oldId: string, newId: string)
    ensures !Holds(rows, oldId) ==> RenamedRows(rows, oldId, newId) == rows
  {
    HoldsIff(rows, oldId);
  }
}
