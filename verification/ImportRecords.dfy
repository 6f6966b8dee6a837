/**
  What an import and its rollback leave on record (electron/main/workbuddy-import.ts): the journal
  record, the properties of the centre file, the centre entry, and the ids drawn for them.
 */
module ImportRecords {
  import opened Common
  import opened Manifest
  import opened ImportSpec
  import opened ImportLaws
  import opened ImportService

  // ---------- The journal record ----------

  /** After a confirmation the record says installed, names plugin and files, and a backup exactly if there was a directory. */
  lemma {:induction false} ConfirmRecords(fs: Files, c: Import)
    ensures IsInstalled(Confirmed(fs, c), c.importId)
    ensures var j := JournalAt(Confirmed(fs, c), c.importId).value;
      && j.pluginId == c.pluginId && j.files == c.files
      && (j.backup.Some? <==> exists x :: x in fs && Destination(c.pluginId) <= x)
      && (j.backup.Some? ==> j.backup.value == Backup(c.pluginId, c.backupNonce))
  {
    ConfirmedFiles(fs, c, JournalPath(c.importId));
  }

  /** After a rollback the record says so, whether it had a backup or not; the rest of it is unchanged. */
  lemma {:induction false} RollbackRecords(fs: Files, importId: string)
    requires JournalAt(fs, importId).Some?
    ensures !IsInstalled(RolledBack(fs, importId), importId)
    ensures JournalAt(RolledBack(fs, importId), importId).Some?
    ensures var before, after := JournalAt(fs, importId).value, JournalAt(RolledBack(fs, importId), importId).value;
      after.pluginId == before.pluginId && after.files == before.files && after.backup == before.backup
  {
  }

  /** A rollback leaves the records of all other imports, and every file elsewhere. */
  lemma {:induction false} RollbackLeavesElsewhere(fs: Files, importId: string, x: Path)
    requires JournalAt(fs, importId).Some?
    requires var j := JournalAt(fs, importId).value;
      && !(Destination(j.pluginId) <= x) && x != CENTRE && x != JournalPath(importId)
      && (j.backup.Some? ==> |j.backup.value| == 2 && Apart(Destination(j.pluginId), j.backup.value) && !(j.backup.value <= x))
    ensures At(RolledBack(fs, importId), x) == At(fs, x)
  {
    RolledBackFiles(fs, importId, x);
  }

  lemma {:induction false} RolledBackCentreIs(fs: Files, c: Import)
    requires c.pluginId != META
    ensures At(RolledBack(Confirmed(fs, c), c.importId), CENTRE)
         == CentreRolledBack(Some(CentreAfter(At(fs, CENTRE), c.pluginId, c.entry)), c.pluginId)
  {
    HeadJournal(fs, c, Confirmed(fs, c));
    PlacesApart(c.pluginId, c.importId, "", c.backupNonce);
    ConfirmedFiles(fs, c, CENTRE);
  }

  /** Confirmed and rolled back, an import can be confirmed again, with any backup name not taken before. */
  lemma {:induction false} ReadyAgain(fs: Files, c: Import, backupNonce: string)
    requires Ready(fs, c) && !Exists(fs, Backup(c.pluginId, backupNonce))
    ensures Ready(RolledBack(Confirmed(fs, c), c.importId), c.(backupNonce := backupNonce))
  {
    var t, again := RolledBack(Confirmed(fs, c), c.importId), c.(backupNonce := backupNonce);
    var b := Backup(c.pluginId, backupNonce);
    HeadJournal(fs, c, Confirmed(fs, c));
    RollbackRecords(Confirmed(fs, c), c.importId);
    forall x | b <= x ensures x !in t {
      PlacesOf(again, x);
      RollbackUndoes(fs, c, Confirmed(fs, c), x);
      assert x in fs ==> Exists(fs, b);
      assert At(t, x).None?;
    }
    CommittedCentre(fs, c);
    CommittedCentre(t, again);
    if c.pluginId != META {
      RolledBackCentreIs(fs, c);
    }
  }

  // ---------- The centre file ----------

  /** A confirmation sets the categories and the list of experts and keeps all other properties of the centre. */
  lemma {:induction false} CentreKeepsOthers(text: Option<Content>, pluginId: string, entry: Json, key: string)
    ensures IsObject(Some(CentreAfter(text, pluginId, entry)))
    ensures var fields := CentreAfter(text, pluginId, entry).value.fields;
      && (key != "categories" && key != "experts" ==> Get(fields, key) == Get(CentreFields(text), key))
      && Get(fields, "categories") == Some(Arr([Obj([Field("id", Str("imported")),
           Field("name", Obj([Field("zh", Str("已导入")), Field("en", Str("Imported"))]))])]))
      && Get(fields, "experts") == Some(Arr(OtherExperts(ExpertsOf(text), pluginId) + [entry]))
  {
    var fields := CentreFields(text);
    var listed := Arr(OtherExperts(ExpertsOf(text), pluginId) + [entry]);
    var first := Assigned(fields, "categories", IMPORTED_CATEGORIES);
    AssignedGet(fields, "categories", IMPORTED_CATEGORIES);
    AssignedGet(first, "experts", listed);
    assert "categories" != "experts" by { assert |"categories"| == 10 && |"experts"| == 7; }
    GetAssigned(first, "experts", listed, "categories");
    if key != "categories" && key != "experts" {
      GetAssigned(fields, "categories", IMPORTED_CATEGORIES, key);
      GetAssigned(first, "experts", listed, key);
    }
  }

  /** A rollback changes nothing of the centre but the list of experts, and a centre without one not at all. */
  lemma {:induction false} CentreRolledBackKeepsOthers(text: Option<Content>, pluginId: string, key: string)
    requires key != "experts"
    ensures !ListsExperts(text) ==> CentreRolledBack(text, pluginId) == text
    ensures ListsExperts(text) ==> IsObject(CentreRolledBack(text, pluginId))
    ensures ListsExperts(text) ==>
      Get(CentreRolledBack(text, pluginId).value.value.fields, key) == Get(text.value.value.fields, key)
  {
    if ListsExperts(text) {
      GetAssigned(text.value.value.fields, "experts", Arr(OtherExperts(ExpertsOf(text), pluginId)), key);
    }
  }

  /** The experts kept are those that are no object naming the plugin, each in its turn. */
  lemma {:induction false} OtherExpertsFirst(item: Json, items: seq<Json>, pluginId: string)
    ensures var own := item.Obj? && Get(item.fields, "plugin") == Some(Str(pluginId));
      OtherExperts([item] + items, pluginId) == (if own then [] else [item]) + OtherExperts(items, pluginId)
    ensures OtherExperts([], pluginId) == []
  {
    assert ([item] + items)[1..] == items;
  }

  // ---------- The entry of a plugin ----------

  /** The value of a property of an entry built from literal keys. */
  lemma {:induction false} GetNext(fields: seq<Field>, key: string)
    requires fields != []
    ensures Get(fields, key) == if fields[0].key == key then Some(fields[0].value) else Get(fields[1..], key)
  {
  }

  lemma {:induction false} GetAt(fields: seq<Field>, i: nat)
    requires i < |fields| && forall j :: 0 <= j < i ==> fields[j].key != fields[i].key
    ensures Get(fields, fields[i].key) == Some(fields[i].value)
  {
    if i > 0 {
      GetAt(fields[1..], i - 1);
    }
  }

  lemma {:induction false} GetAbsent(fields: seq<Field>, key: string)
    requires forall j :: 0 <= j < |fields| ==> fields[j].key != key
    ensures Get(fields, key) == None
  {
    if fields != [] {
      GetAbsent(fields[1..], key);
    }
  }

  predicate Shows(entry: Json, key: string, value: string) {
    entry.Obj? && Get(entry.fields, key) == Some(Str(value))
  }

  /** The entry shows the plugin under its id in the category of imports, as a team or an expert, with its lead agent. */
  lemma {:induction false} EntryShows(pluginId: string, team: bool, agentName: Option<string>)
    ensures var entry := ExpertEntry(pluginId, team, agentName);
      && Shows(entry, "id", pluginId) && Shows(entry, "plugin", pluginId) && Shows(entry, "displayName", pluginId)
      && Shows(entry, "categoryId", "imported") && Shows(entry, "displayDescription", "从 WorkBuddy 本地配置导入")
      && Shows(entry, "profession", if team then "专家团" else "专家")
      && Shows(entry, "expertType", if team then "team" else "agent")
      && Get(entry.fields, "agentName") == (if agentName.Some? then Some(Str(agentName.value)) else None)
  {
    var fields := ExpertEntry(pluginId, team, agentName).fields;
    KeysOfEntry(pluginId, team, agentName);
    GetAt(fields, 0);
    GetAt(fields, 1);
    GetAt(fields, 2);
    GetAt(fields, 3);
    GetAt(fields, 4);
    GetAt(fields, 5);
    GetAt(fields, 6);
    if agentName.Some? {
      GetAt(fields, 7);
    } else {
      GetAbsent(fields, "agentName");
    }
  }

  const ENTRY_KEYS: seq<string> :=
    ["id", "plugin", "categoryId", "displayName", "displayDescription", "profession", "expertType", "agentName"]

  lemma {:induction false} KeysDiffer(i: nat, j: nat)
    requires i < j < 8
    ensures ENTRY_KEYS[i] != ENTRY_KEYS[j]
  {
    assert |"id"| == 2 && |"plugin"| == 6 && |"categoryId"| == 10 && |"displayName"| == 11;
    assert |"displayDescription"| == 18 && |"profession"| == 10 && |"expertType"| == 10 && |"agentName"| == 9;
    assert "categoryId"[0] == 'c' && "profession"[0] == 'p' && "expertType"[0] == 'e';
  }

  lemma {:induction false} KeysOfEntry(pluginId: string, team: bool, agentName: Option<string>)
    ensures var fields := ExpertEntry(pluginId, team, agentName).fields;
      && |fields| == (if agentName.Some? then 8 else 7)
      && (forall i :: 0 <= i < |fields| ==> fields[i].key == ENTRY_KEYS[i])
      && (forall i, j :: 0 <= i < j < |fields| ==> fields[i].key != fields[j].key)
      && (forall i :: 0 <= i < 7 ==> fields[i].key != "agentName")
  {
    forall i, j | 0 <= i < j < 8 ensures ENTRY_KEYS[i] != ENTRY_KEYS[j] {
      KeysDiffer(i, j);
    }
  }

  /** The centre staged with a plugin lists it alone, under the category of imports. */
  lemma {:induction false} OwnCentreLists(entry: Json)
    ensures ExpertsOf(Some(JsonText(OwnCentre(entry)))) == [entry]
    ensures Get(OwnCentre(entry).fields, "categories") == Some(IMPORTED_CATEGORIES)
  {
    var fields := OwnCentre(entry).fields;
    assert fields[0].key == "categories" && fields[1].key == "experts";
    assert |"categories"| == 10 && |"experts"| == 7;
    GetAt(fields, 0);
    GetAt(fields, 1);
  }

  // ---------- Previews and ids ----------

  /** A preview can be confirmed for ten minutes, without errors, unless it is blocked, a downgrade or a conflict. */
  lemma {:induction false} ConfirmableIff(p: Preview, now: int)
    ensures Confirmable(p, now) <==>
      && now <= p.createdAt + 10 * 60 * 1000 && !p.hasErrors
      && p.disposition != Blocked && p.disposition != Downgrade && p.disposition != Conflict
  {
  }

  predicate SafeChar(c: char) {
    'a' <= c <= 'z' || 'A' <= c <= 'Z' || '0' <= c <= '9' || c == '.' || c == '_' || c == '-'
  }

  /** A sanitized version holds only safe characters; a safe one is unchanged, and others change where they are unsafe. */
  lemma {:induction false} SanitizedIsSafe(version: string)
    ensures |Sanitized(version)| == |version|
    ensures forall i :: 0 <= i < |version| ==>
      SafeChar(Sanitized(version)[i]) && (SafeChar(version[i]) <==> Sanitized(version)[i] == version[i])
    ensures Sanitized(version) == version <==> forall i :: 0 <= i < |version| ==> SafeChar(version[i])
  {
    var s := Sanitized(version);
    forall i | 0 <= i < |version|
      ensures SafeChar(s[i]) && (SafeChar(version[i]) <==> s[i] == version[i])
    {
    }
  }

  /** What a confirmation puts on record of a preview: its plugin, and the paths of its files in order. */
  lemma {:induction false} TransactionOfPreview(p: Preview, backupNonce: string, source: Files)
    requires Stageable(p, source)
    ensures var c := Transaction(p, backupNonce, source);
      && c.pluginId == p.pluginId && c.backupNonce == backupNonce
      && c.importId == p.pluginId + "-" + Sanitized(p.versionName)
      && |c.files| == |p.files| && (forall i :: 0 <= i < |p.files| ==> c.files[i] == p.files[i].path)
      && c.entry == ExpertEntry(p.pluginId, p.team, p.agentName)
  {
  }
}
