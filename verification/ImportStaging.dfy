/**
  What an import stages (electron/main/workbuddy-import.ts): which files it refuses, what ends up
  in the plugin directory, whether the installed manifest is free of secrets, and what the next
  preview says.
 */
module ImportStaging {
  import opened Common
  import opened Manifest
  import opened ImportSpec
  import opened ImportLaws

  // ---------- Which files are staged ----------

  /**
    A resource has the place `rest` exactly when its path is that of a plugin in a marketplace, or
    below plugins/plugins, followed by `rest`, which is not empty and has no empty or climbing segment.
   */
  lemma {:induction false} ImportedPathIff(path: Path, rest: Path)
    ensures ImportedPath(path) == Some(rest) <==>
      && rest != [] && (forall k :: 0 <= k < |rest| ==> rest[k] != "" && rest[k] != "..")
      && ((exists market, id :: market != "" && id != "" && path == ["plugins", "marketplaces", market, "plugins", id] + rest)
          || (exists id :: id != "" && path == ["plugins", "plugins", id] + rest))
  {
    if ImportedPath(path) == Some(rest) {
      if path[1] == "marketplaces" {
        assert path == ["plugins", "marketplaces", path[2], "plugins", path[4]] + rest;
      } else {
        assert path == ["plugins", "plugins", path[2]] + rest;
      }
    }
    if market, id :| market != "" && id != "" && path == ["plugins", "marketplaces", market, "plugins", id] + rest {
      assert path[5..] == rest;
    }
    if id :| id != "" && path == ["plugins", "plugins", id] + rest {
      assert path[3..] == rest;
      assert |"plugins"| != |"marketplaces"|;
    }
  }

  predicate Usable(file: FileRef, source: Files) {
    TargetOf(file).Some? && StagedContent(file, source).Some?
  }

  /** Of two files with a place, none stands where the other needs a directory. */
  predicate NoneNested(files: seq<FileRef>) {
    forall i, j :: 0 <= i < j < |files| && TargetOf(files[i]).Some? && TargetOf(files[j]).Some? ==>
      !Nested(TargetOf(files[i]).value, TargetOf(files[j]).value)
  }

  predicate AllUsable(files: seq<FileRef>, source: Files) {
    forall i :: 0 <= i < |files| ==> Usable(files[i], source)
  }

  lemma {:induction false} StagedKeys(files: seq<FileRef>, source: Files, x: Path)
    requires StagedFiles(files, source).Some?
    ensures x in StagedFiles(files, source).value <==> exists i :: 0 <= i < |files| && TargetOf(files[i]) == Some(x)
    decreases |files|
  {
    if files != [] {
      var n := |files| - 1;
      StagedKeys(files[..n], source, x);
      if i :| 0 <= i < |files| && TargetOf(files[i]) == Some(x) {
        assert i < n ==> files[..n][i] == files[i];
      }
    }
  }

  lemma {:induction false} ObstructedIff(files: seq<FileRef>, source: Files, x: Path)
    requires StagedFiles(files, source).Some?
    ensures Obstructed(StagedFiles(files, source).value, x)
        <==> exists i :: 0 <= i < |files| && TargetOf(files[i]).Some? && Nested(TargetOf(files[i]).value, x)
  {
    var staged := StagedFiles(files, source).value;
    if Obstructed(staged, x) {
      var y :| y in staged && Nested(y, x);
      StagedKeys(files, source, y);
    }
    forall i | 0 <= i < |files| && TargetOf(files[i]).Some? ensures TargetOf(files[i]).value in staged {
      StagedKeys(files, source, TargetOf(files[i]).value);
    }
  }

  lemma {:induction false} NoneNestedMore(files: seq<FileRef>)
    requires files != [] && TargetOf(files[|files| - 1]).Some?
    ensures var n := |files| - 1;
      var fits := forall i :: 0 <= i < n && TargetOf(files[i]).Some? ==> !Nested(TargetOf(files[i]).value, TargetOf(files[n]).value);
      NoneNested(files) <==> NoneNested(files[..n]) && fits
  {
    var n := |files| - 1;
    assert forall i :: 0 <= i < n ==> files[..n][i] == files[i];
    if NoneNested(files[..n]) && forall i :: 0 <= i < n && TargetOf(files[i]).Some? ==> !Nested(TargetOf(files[i]).value, TargetOf(files[n]).value) {
      forall i, j | 0 <= i < j < |files| && TargetOf(files[i]).Some? && TargetOf(files[j]).Some?
        ensures !Nested(TargetOf(files[i]).value, TargetOf(files[j]).value)
      {
        assert j < n ==> files[..n][j] == files[j] && files[..n][i] == files[i];
      }
    }
  }

  /**
    All previewed files are staged, or none: each must have a place and be as it was previewed, and
    none may stand where another needs a directory.
   */
  lemma {:induction false} StageableIff(files: seq<FileRef>, source: Files)
    ensures StagedFiles(files, source).Some? <==> AllUsable(files, source) && NoneNested(files)
    decreases |files|
  {
    if files != [] {
      var n := |files| - 1;
      var before := files[..n];
      StageableIff(before, source);
      assert forall i :: 0 <= i < n ==> before[i] == files[i];
      assert AllUsable(files, source) <==> AllUsable(before, source) && Usable(files[n], source);
      if StagedFiles(before, source).Some? && TargetOf(files[n]).Some? {
        ObstructedIff(before, source, TargetOf(files[n]).value);
        NoneNestedMore(files);
      }
    }
  }

  /**
    The staging directory is complete exactly when moreover the last file staged as the manifest is
    an object, and no file stands where the copies of the manifest or the plugin's centre need a
    directory, such as an avatar named `_meta`.
   */
  lemma {:induction false} StagedTreeIff(files: seq<FileRef>, entry: Json, source: Files)
    ensures StagedTree(files, entry, source).Some? <==>
      && AllUsable(files, source) && NoneNested(files)
      && LastAt(files, MANIFEST_PATH).Some? && IsObject(Some(files[LastAt(files, MANIFEST_PATH).value].hashed))
      && forall i :: 0 <= i < |files| && TargetOf(files[i]).Some? ==>
           !Nested(TargetOf(files[i]).value, MANIFEST_COPY) && !Nested(TargetOf(files[i]).value, STAGED_CENTRE)
  {
    StageableIff(files, source);
    if StagedFiles(files, source).Some? {
      StagedFilesAt(files, source, MANIFEST_PATH);
      ObstructedIff(files, source, MANIFEST_COPY);
      ObstructedIff(files, source, STAGED_CENTRE);
      if LastAt(files, MANIFEST_PATH).Some? {
        assert Usable(files[LastAt(files, MANIFEST_PATH).value], source);
      }
    }
  }

  lemma {:induction false} OwnPlacesApart()
    ensures !Nested(MANIFEST_PATH, MANIFEST_COPY) && !Nested(MANIFEST_PATH, STAGED_CENTRE)
  {
    assert |MANIFEST_PATH[0]| == 11 && |MANIFEST_COPY[0]| == 17 && |STAGED_CENTRE[0]| == 5;
  }

  /** Files that all are staged as the manifest get into nobody's way. */
  lemma {:induction false} ManifestsStage(files: seq<FileRef>, entry: Json, source: Files)
    requires files != [] && AllUsable(files, source) && IsObject(Some(files[|files| - 1].hashed))
    requires forall i :: 0 <= i < |files| ==> TargetOf(files[i]) == Some(MANIFEST_PATH)
    ensures StagedTree(files, entry, source).Some? && LastAt(files, MANIFEST_PATH) == Some(|files| - 1)
  {
    OwnPlacesApart();
    StagedTreeIff(files, entry, source);
  }

  /**
    An agent of a plugin in the direct layout has no place, and then nothing is staged; only below
    the id "plugins" it has one, and not the one it had in the plugin.
   */
  lemma {:induction false} DirectAgentsRefused(files: seq<FileRef>, source: Files, i: nat, id: string, agent: string)
    requires i < |files| && files[i].kind == Resource && files[i].path == ["plugins", id, "agents", agent]
    ensures TargetOf(files[i]) == if id == "plugins" && SafeTail([agent]) then Some([agent]) else None
    ensures TargetOf(files[i]).None? ==> StagedFiles(files, source).None?
  {
    var path := files[i].path;
    assert path[3..] == [agent];
    StageableIff(files, source);
    assert TargetOf(files[i]).None? ==> !Usable(files[i], source);
  }

  /** A plugin in the direct layout without resources is staged by its manifest alone. */
  lemma {:induction false} DirectManifestAccepted(id: string, name: Path, fields: seq<Field>, entry: Json, source: Files)
    requires At(source, ["plugins", id] + name) == Some(JsonText(Obj(fields)))
    ensures var file := FileRef(["plugins", id] + name, ManifestFile, JsonText(Obj(fields)));
      && StagedTree([file], entry, source).Some?
      && At(StagedTree([file], entry, source).value, MANIFEST_PATH) == Some(JsonText(Obj(Stamped(fields))))
  {
    var file := FileRef(["plugins", id] + name, ManifestFile, JsonText(Obj(fields)));
    assert Usable(file, source);
    ManifestsStage([file], entry, source);
    StagedTreeHolds([file], entry, source, MANIFEST_PATH);
  }

  // ---------- What is staged where ----------

  /** The last of the files staged at a target. */
  function LastAt(files: seq<FileRef>, target: Path): (l: Option<nat>)
    ensures l.Some? ==> l.value < |files| && TargetOf(files[l.value]) == Some(target)
  {
    if files == [] then None
    else
      var n := |files| - 1;
      if TargetOf(files[n]) == Some(target) then Some(n) else LastAt(files[..n], target)
  }

  lemma {:induction false} LastAtIsLast(files: seq<FileRef>, i: nat)
    requires i < |files| && TargetOf(files[i]).Some?
    ensures LastAt(files, TargetOf(files[i]).value).Some? && i <= LastAt(files, TargetOf(files[i]).value).value
  {
    var n := |files| - 1;
    if TargetOf(files[n]) != TargetOf(files[i]) {
      LastAtIsLast(files[..n], i);
    }
  }

  /** At every place stands what the last file staged there brings, and nothing stands elsewhere. */
  lemma {:induction false} StagedFilesAt(files: seq<FileRef>, source: Files, target: Path)
    requires StagedFiles(files, source).Some?
    ensures At(StagedFiles(files, source).value, target)
         == if LastAt(files, target).None? then None else StagedContent(files[LastAt(files, target).value], source)
    decreases |files|
  {
    if files != [] {
      var n := |files| - 1;
      StagedFilesAt(files[..n], source, target);
      var l := LastAt(files[..n], target);
      assert l.Some? ==> files[..n][l.value] == files[l.value];
    }
  }

  /**
    Every previewed file is staged with the content the preview hashed, unless a later one of
    another kind or from another path takes its place.
   */
  lemma {:induction false} StagedFilesHold(files: seq<FileRef>, source: Files, i: nat)
    requires i < |files| && StagedFiles(files, source).Some?
    ensures TargetOf(files[i]).Some? && LastAt(files, TargetOf(files[i]).value).Some?
    ensures At(source, files[i].path) == Some(files[i].hashed)
    ensures var target := TargetOf(files[i]).value;
      var last := files[LastAt(files, target).value];
      && At(StagedFiles(files, source).value, target) == StagedContent(last, source)
      && (last.path == files[i].path && last.kind == files[i].kind ==>
            At(StagedFiles(files, source).value, target) == StagedContent(files[i], source))
  {
    StageableIff(files, source);
    assert Usable(files[i], source);
    LastAtIsLast(files, i);
    StagedFilesAt(files, source, TargetOf(files[i]).value);
    assert Usable(files[LastAt(files, TargetOf(files[i]).value).value], source);
  }

  /** The properties of the manifest file that ends up as the plugin's. */
  function ManifestSource(files: seq<FileRef>): seq<Field> {
    var l := LastAt(files, MANIFEST_PATH);
    if l.Some? && files[l.value].hashed.JsonText? then FieldsOf(files[l.value].hashed.value) else []
  }

  /** The properties it is staged with: a resource is copied as it is, the manifest is redacted. */
  function ManifestStaged(files: seq<FileRef>): seq<Field> {
    var l := LastAt(files, MANIFEST_PATH);
    if l.Some? && files[l.value].kind == ManifestFile then RedactFields(ManifestSource(files)) else ManifestSource(files)
  }

  /**
    The staged tree: the manifest of the last file staged as the manifest, with its fingerprint, in
    both places; the plugin's own centre; and the source files everywhere else.
   */
  lemma {:induction false} StagedTreeHolds(files: seq<FileRef>, entry: Json, source: Files, target: Path)
    requires StagedTree(files, entry, source).Some?
    ensures LastAt(files, MANIFEST_PATH).Some?
    ensures At(StagedTree(files, entry, source).value, target) ==
      if target == STAGED_CENTRE then Some(JsonText(OwnCentre(entry)))
      else if target == MANIFEST_PATH || target == MANIFEST_COPY then Some(JsonText(Obj(Stamp(ManifestStaged(files)))))
      else if LastAt(files, target).None? then None
      else At(source, files[LastAt(files, target).value].path)
  {
    StagedFilesAt(files, source, MANIFEST_PATH);
    StagedFilesAt(files, source, target);
    if target != MANIFEST_PATH && LastAt(files, target).Some? {
      StagedFilesHold(files, source, LastAt(files, target).value);
    }
  }

  // ---------- Is the installed manifest free of secrets? ----------

  lemma {:induction false} HashKeyNotSensitive()
    ensures !Sensitive(HASH_KEY)
  {
    var letters := {'c', 'k', 'w', 'r'};
    assert forall j :: 0 <= j < 21 ==> Lower(HASH_KEY[j]) !in letters;
    forall w: nat, i: nat | w < |SENSITIVE_WORDS|
      ensures !OccursAt(HASH_KEY, SENSITIVE_WORDS[w], i)
    {
      var word := SENSITIVE_WORDS[w];
      if w == 10 {
        NoOauth(i);
      } else {
        assert w == 0 ==> word[2] == 'k';
        assert w == 1 ==> word[2] == 'c';
        assert w == 2 ==> word[4] == 'w';
        assert w == 3 ==> word[0] == 'c';
        assert 4 <= w <= 6 ==> word[1] == 'r';
        assert 7 <= w <= 9 ==> word[5] == 'r';
        assert 11 <= w <= 13 ==> word[1] == 'c';
        assert 14 <= w <= 16 ==> word[0] == 'r';
        LacksLetters(HASH_KEY, word, letters, i);
      }
    }
  }

  lemma {:induction false} NoOauth(i: nat)
    ensures !OccursAt(HASH_KEY, "oauth", i)
  {
    if i + 5 <= |HASH_KEY| {
      assert |HASH_KEY| == 21;
      assert i != 0 ==> Lower(HASH_KEY[i]) != 'o';
      assert "oauth"[0] == 'o' && "oauth"[1] == 'a' && HASH_KEY[1] == 'p';
      assert OccursAt(HASH_KEY, "oauth", i) ==> Lower(HASH_KEY[i + 0]) == 'o' && Lower(HASH_KEY[i + 1]) == 'a';
    }
  }

  lemma {:induction false} CleanCons(f: Field, fields: seq<Field>)
    ensures Clean(Obj([f] + fields)) <==> !Sensitive(f.key) && Clean(f.value) && Clean(Obj(fields))
  {
    var all := [f] + fields;
    assert all[0] == f && forall i :: 0 <= i < |fields| ==> all[i + 1] == fields[i];
  }

  lemma {:induction false} StampCleanIff(fields: seq<Field>, key: string, value: Json)
    requires DistinctKeys(fields) && !Sensitive(key) && Clean(value)
    ensures Clean(Obj(Assigned(fields, key, value))) <==> Clean(Obj(Deleted(fields, key)))
  {
    if fields == [] {
      CleanCons(Field(key, value), []);
      assert [Field(key, value)] + [] == [Field(key, value)];
    } else if fields[0].key == key {
      CleanCons(Field(key, value), fields[1..]);
      DeletedAbsent(fields[1..], key);
    } else {
      StampCleanIff(fields[1..], key, value);
      CleanCons(fields[0], Assigned(fields[1..], key, value));
      CleanCons(fields[0], Deleted(fields[1..], key));
    }
  }

  lemma {:induction false} DeletedAbsent(fields: seq<Field>, key: string)
    requires Get(fields, key).None?
    ensures Deleted(fields, key) == fields
  {
    if fields != [] {
      DeletedAbsent(fields[1..], key);
    }
  }

  lemma {:induction false} DeletedClean(fields: seq<Field>, key: string)
    requires Clean(Obj(fields))
    ensures Clean(Obj(Deleted(fields, key)))
  {
    if fields != [] {
      assert fields == [fields[0]] + fields[1..];
      CleanCons(fields[0], fields[1..]);
      DeletedClean(fields[1..], key);
      CleanCons(fields[0], Deleted(fields[1..], key));
    }
  }

  /**
    The installed manifest holds nothing sensitive exactly when the last file staged as the
    manifest is the manifest itself, or a resource that holds nothing sensitive apart from the
    property the fingerprint replaces.
   */
  lemma {:induction false} InstalledManifestCleanIff(files: seq<FileRef>, entry: Json, source: Files)
    requires StagedTree(files, entry, source).Some? && DistinctKeys(ManifestSource(files))
    ensures var installed := At(StagedTree(files, entry, source).value, MANIFEST_PATH);
      && LastAt(files, MANIFEST_PATH).Some? && IsObject(installed)
      && (Clean(installed.value.value) <==>
            || files[LastAt(files, MANIFEST_PATH).value].kind == ManifestFile
            || Clean(Obj(Deleted(ManifestSource(files), HASH_KEY))))
  {
    StagedTreeHolds(files, entry, source, MANIFEST_PATH);
    HashKeyNotSensitive();
    var fields, staged := ManifestSource(files), ManifestStaged(files);
    RedactFieldsKeys(fields);
    StampCleanIff(staged, HASH_KEY, Fingerprint(staged));
    if files[LastAt(files, MANIFEST_PATH).value].kind == ManifestFile {
      RedactFieldsCleans(fields);
      DeletedClean(staged, HASH_KEY);
    }
  }

  const LEAKY: Content := JsonText(Obj([Field("token", Str("t")), Field("avatar", Str("plugin.json"))]))
  const LEAKY_PATH: Path := ["plugins", "marketplaces", "m", "plugins", "p", "plugin.json"]

  /** An avatar that names the manifest: the raw copy takes the place of the redacted one. */
  lemma AvatarReplacesManifest(entry: Json)
    ensures var files := [FileRef(LEAKY_PATH, ManifestFile, LEAKY), FileRef(LEAKY_PATH, Resource, LEAKY)];
      var tree := StagedTree(files, entry, map[LEAKY_PATH := LEAKY]);
      && tree.Some? && IsObject(At(tree.value, MANIFEST_PATH))
      && !Clean(tree.value[MANIFEST_PATH].value)
      && Get(tree.value[MANIFEST_PATH].value.fields, "token") == Some(Str("t"))
  {
    var m, r := FileRef(LEAKY_PATH, ManifestFile, LEAKY), FileRef(LEAKY_PATH, Resource, LEAKY);
    var files, source := [m, r], map[LEAKY_PATH := LEAKY];
    assert LEAKY_PATH[5..] == MANIFEST_PATH;
    assert ImportedPath(LEAKY_PATH) == Some(MANIFEST_PATH);
    assert Usable(m, source) && Usable(r, source);
    ManifestsStage(files, entry, source);
    StagedTreeHolds(files, entry, source, MANIFEST_PATH);
    LeakyStamped();
  }

  lemma {:induction false} LeakyStamped()
    ensures !Clean(Obj(Stamp(LEAKY.value.fields))) && Get(Stamp(LEAKY.value.fields), "token") == Some(Str("t"))
  {
    assert OccursAt("token", SENSITIVE_WORDS[0], 0);
    assert Stamp(LEAKY.value.fields)[0] == LEAKY.value.fields[0];
  }

  // ---------- What the next preview says ----------

  lemma {:induction false} FingerprintStaged(files: seq<FileRef>)
    requires DistinctKeys(ManifestSource(files))
    ensures Get(Stamp(ManifestStaged(files)), HASH_KEY) == Some(Fingerprint(ManifestSource(files)))
  {
    FingerprintStable(ManifestSource(files));
    DeletedAssigned(ManifestSource(files), HASH_KEY, Fingerprint(ManifestSource(files)));
  }

  lemma {:induction false} SameByHash(m: seq<Field>, installed: seq<Field>, of: seq<Field>)
    requires Get(installed, HASH_KEY) == Some(Fingerprint(of))
    ensures DispositionOf(m, Some(Obj(installed)), false) == Same <==> SameImport(m, of)
    ensures DispositionOf(of, Some(Obj(installed)), false) == Same
  {
  }

  lemma {:induction false} InstalledManifest(fs: Files, c: Import, files: seq<FileRef>, source: Files)
    requires StagedTree(files, c.entry, source) == Some(c.tree)
    ensures At(Confirmed(fs, c), Destination(c.pluginId) + MANIFEST_PATH) == Some(JsonText(Obj(Stamp(ManifestStaged(files)))))
  {
    StagedTreeHolds(files, c.entry, source, MANIFEST_PATH);
    CentreInside(c.pluginId, MANIFEST_PATH);
    ConfirmedInstalls(fs, c);
  }

  /**
    After a confirmed import, previewing a manifest reports `same` exactly when it redacts to the
    one staged last; so the unchanged source of that one always does.
   */
  lemma {:induction false} ConfirmedPreviewsSame(fs: Files, c: Import, files: seq<FileRef>, source: Files, m: seq<Field>)
    requires StagedTree(files, c.entry, source) == Some(c.tree) && DistinctKeys(ManifestSource(files))
    ensures var installed := At(Confirmed(fs, c), Destination(c.pluginId) + MANIFEST_PATH);
      && IsObject(installed)
      && (DispositionOf(m, Some(installed.value.value), false) == Same <==> SameImport(m, ManifestSource(files)))
      && DispositionOf(ManifestSource(files), Some(installed.value.value), false) == Same
  {
    InstalledManifest(fs, c, files, source);
    FingerprintStaged(files);
    SameByHash(m, Stamp(ManifestStaged(files)), ManifestSource(files));
  }
}
