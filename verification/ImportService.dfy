/**
  The import service of electron/main/workbuddy-import.ts, step by step.  Every file operation
  may fail: a failed write leaves anything in its file, a failed removal may remove a part.  The
  out-parameter `clean` tells that no failure was swallowed, in the reads whose errors the source
  ignores and in the recovery.
 */
module ImportService {
  import opened Common
  import opened Manifest
  import opened ImportSpec
  import opened ImportLaws

  const PREVIEW_TTL_MS: int := 600000

  datatype Preview = Preview(
    pluginId: string, versionName: string, files: seq<FileRef>, disposition: Disposition,
    hasErrors: bool, team: bool, agentName: Option<string>, createdAt: int)
  datatype Outcome = Installed(importId: string) | AlreadyInstalled(importId: string) | Failed

  /** Characters that may not stand in a file name become underscores. */
  function Sanitized(version: string): string {
    seq(|version|, i requires 0 <= i < |version| =>
      var c := version[i];
      if 'A' <= c <= 'Z' || 'a' <= c <= 'z' || '0' <= c <= '9' || c in "._-" then c else '_')
  }

  function ImportIdOf(p: Preview): string {
    p.pluginId + "-" + Sanitized(p.versionName)
  }

  predicate Unsafe(c: char) {
    Sanitized([c]) == ['_']
  }

  /** Versions that sanitize alike differ at most in characters that become underscores. */
  lemma {:induction false} SanitizedSameIff(v: string, w: string)
    ensures Sanitized(v) == Sanitized(w)
        <==> |v| == |w| && forall i :: 0 <= i < |v| ==> v[i] == w[i] || (Unsafe(v[i]) && Unsafe(w[i]))
  {
    forall s: string, i: nat | i < |s| ensures Sanitized(s)[i] == Sanitized([s[i]])[0] {
    }
    if Sanitized(v) == Sanitized(w) {
      assert |Sanitized(v)| == |v| && |Sanitized(w)| == |w|;
      forall i | 0 <= i < |v| ensures v[i] == w[i] || (Unsafe(v[i]) && Unsafe(w[i])) {
        assert Sanitized(v)[i] == Sanitized(w)[i];
      }
    } else if |v| == |w| {
      var i :| 0 <= i < |v| && Sanitized(v)[i] != Sanitized(w)[i];
      assert Unsafe(v[i]) ==> Sanitized(v)[i] == '_';
      assert Unsafe(w[i]) ==> Sanitized(w)[i] == '_';
    }
  }

  /** The longer plugin id is the shorter one, a hyphen and the start of the other's version. */
  predicate SplitsDifferently(p: Preview, q: Preview) {
    && p.pluginId + "-" <= q.pluginId
    && Sanitized(p.versionName) == q.pluginId[|p.pluginId| + 1..] + "-" + Sanitized(q.versionName)
  }

  lemma {:induction false} SharedImportIdFrom(p: Preview, q: Preview)
    requires |p.pluginId| <= |q.pluginId|
    ensures ImportIdOf(p) == ImportIdOf(q) <==>
      || (p.pluginId == q.pluginId && Sanitized(p.versionName) == Sanitized(q.versionName))
      || SplitsDifferently(p, q)
  {
    var a, b, n := ImportIdOf(p), ImportIdOf(q), |p.pluginId|;
    assert a[..n] == p.pluginId && a[n] == '-' && a[n + 1..] == Sanitized(p.versionName);
    if |q.pluginId| == n {
      assert b[..n] == q.pluginId && b[n + 1..] == Sanitized(q.versionName);
    } else {
      assert b[..n] == q.pluginId[..n] && b[n] == q.pluginId[n];
      assert b[n + 1..] == q.pluginId[n + 1..] + "-" + Sanitized(q.versionName);
      assert p.pluginId + "-" <= q.pluginId <==> q.pluginId[..n] == p.pluginId && q.pluginId[n] == '-';
      assert a == a[..n] + [a[n]] + a[n + 1..] && b == b[..n] + [b[n]] + b[n + 1..];
    }
  }

  /**
    Two previews share an import id, so that one counts as installed when the other is, exactly when
    they are of one plugin with versions that sanitize alike, or one plugin's id continues the
    other's into its version.
   */
  lemma {:induction false} SharedImportIdIff(p: Preview, q: Preview)
    ensures ImportIdOf(p) == ImportIdOf(q) <==>
      || (p.pluginId == q.pluginId && Sanitized(p.versionName) == Sanitized(q.versionName))
      || SplitsDifferently(p, q) || SplitsDifferently(q, p)
  {
    assert SplitsDifferently(p, q) ==> |p.pluginId| < |q.pluginId|;
    assert SplitsDifferently(q, p) ==> |q.pluginId| < |p.pluginId|;
    if |p.pluginId| <= |q.pluginId| {
      SharedImportIdFrom(p, q);
    } else {
      SharedImportIdFrom(q, p);
    }
  }

  /** Once the one is installed, confirming the other is answered without installing it. */
  lemma {:induction false} SharedIdIsInstalled(fs: Files, p: Preview, q: Preview, nonce: string, tree: Files)
    requires ImportIdOf(p) == ImportIdOf(q)
    ensures IsInstalled(Confirmed(fs, ImportOf(p, nonce, tree)), ImportIdOf(q))
  {
    ConfirmedFiles(fs, ImportOf(p, nonce, tree), JournalPath(ImportIdOf(q)));
  }

  function EntryOf(p: Preview): Json {
    ExpertEntry(p.pluginId, p.team, p.agentName)
  }

  function PathsOf(files: seq<FileRef>): seq<Path> {
    seq(|files|, i requires 0 <= i < |files| => files[i].path)
  }

  function ImportOf(p: Preview, backupNonce: string, tree: Files): Import {
    Import(p.pluginId, ImportIdOf(p), backupNonce, PathsOf(p.files), tree, EntryOf(p))
  }

  /** The previews that may be confirmed. */
  predicate Confirmable(p: Preview, now: int) {
    && now - p.createdAt <= PREVIEW_TTL_MS
    && !p.hasErrors
    && p.disposition in {New, Same, Upgrade}
  }

  // ---------- The renames, and how they are taken back ----------

  /** `next` is `fs` with a staged tree in a directory of its own. */
  ghost predicate StagedOver(fs: Files, next: Files, dir: Path, tree: Files) {
    && (forall x :: !(dir <= x) ==> At(next, x) == At(fs, x))
    && (forall r :: At(next, dir + r) == At(tree, r))
  }

  lemma MoveBack(fs: Files, a: Path, b: Path)
    requires Apart(a, b) && !Exists(fs, b)
    ensures Moved(Moved(fs, a, b), b, a) == fs
  {
    forall x ensures At(Moved(Moved(fs, a, b), b, a), x) == At(fs, x) {
      if a <= x {
        assert b <= b + x[|a|..] && (b + x[|a|..])[|b|..] == x[|a|..] && a + x[|a|..] == x;
      }
    }
    SameFiles(Moved(Moved(fs, a, b), b, a), fs);
  }

  /** Old directory to backup, staging directory into place: the committed state. */
  lemma RenamesCommit(fs: Files, staged: Files, c: Import, dir: Path)
    requires StagedOver(fs, staged, dir, c.tree) && |dir| == 2 && !Exists(fs, dir)
    requires var d, b := Destination(c.pluginId), Backup(c.pluginId, c.backupNonce);
      Apart(d, b) && Apart(d, dir) && Apart(b, dir)
    ensures var d := Destination(c.pluginId);
      var saved := if BackupOf(fs, c).Some? then Moved(staged, d, BackupOf(fs, c).value) else staged;
      Moved(saved, dir, d) == Committed(fs, c)
  {
    var d, b := Destination(c.pluginId), Backup(c.pluginId, c.backupNonce);
    var saved := if BackupOf(fs, c).Some? then Moved(staged, d, b) else staged;
    forall x ensures At(Moved(saved, dir, d), x) == CommittedAt(fs, c, x) {
      if d <= x {
        ApartBelow(d, dir, x[2..]);
        ApartBelow(b, dir, x[2..]);
      } else if b <= x {
        ApartBelow(dir, d, x[2..]);
        assert b + x[2..] == x;
        ApartBelow(dir, b, x[2..]);
      }
    }
    SameFiles(Moved(saved, dir, d), Committed(fs, c));
  }

  /** What the recovery leaves before it writes the centre: all files but centre and journal are back. */
  lemma RecoveryRestores(fs: Files, c: Import, failed: Files, dir: Path, x: Path)
    requires !Exists(fs, dir) && !Exists(fs, Backup(c.pluginId, c.backupNonce))
    requires var d, b := Destination(c.pluginId), Backup(c.pluginId, c.backupNonce);
      Apart(d, b) && Apart(d, dir) && Apart(b, dir) && !(b <= CENTRE) && !(b <= JournalPath(c.importId))
    requires forall y :: y != CENTRE && y != JournalPath(c.importId) ==> At(failed, y) == CommittedAt(fs, c, y)
    requires x != CENTRE && x != JournalPath(c.importId)
    ensures var d := Destination(c.pluginId);
      var bare := Erased(Erased(failed, dir), d);
      At(if BackupOf(fs, c).Some? then Moved(bare, BackupOf(fs, c).value, d) else bare, x) == At(fs, x)
  {
    var d, b := Destination(c.pluginId), Backup(c.pluginId, c.backupNonce);
    if d <= x {
      var y := b + x[2..];
      assert y[2..] == x[2..] && d + x[2..] == x && b <= y;
      ApartBelow(d, b, x[2..]);
      ApartBelow(dir, b, x[2..]);
      assert y != CENTRE && y != JournalPath(c.importId);
    }
  }

  /** A path blocked within a directory's tree is blocked where the directory stands. */
  lemma ObstructedBelow(fs: Files, dir: Path, tree: Files, rel: Path)
    requires forall r :: At(fs, dir + r) == At(tree, r)
    ensures Obstructed(tree, rel) ==> Obstructed(fs, dir + rel)
  {
    if Obstructed(tree, rel) {
      var r :| r in tree && Nested(r, rel);
      assert At(fs, dir + r) == At(tree, r);
      assert (dir + r)[|dir|..] == r && (dir + rel)[|dir|..] == rel;
      assert r <= rel ==> rel == r + rel[|r|..] && dir + rel == (dir + r) + rel[|r|..];
      assert rel <= r ==> r == rel + r[|rel|..] && dir + r == (dir + rel) + r[|rel|..];
      assert Nested(dir + r, dir + rel);
    }
  }

  lemma StagedOneMore(refs: seq<FileRef>, i: nat, source: Files)
    requires i < |refs| && StagedFiles(refs[..i], source).Some?
    requires TargetOf(refs[i]).Some? && StagedContent(refs[i], source).Some?
    requires !Obstructed(StagedFiles(refs[..i], source).value, TargetOf(refs[i]).value)
    ensures StagedFiles(refs[..i + 1], source)
         == Some(StagedFiles(refs[..i], source).value[TargetOf(refs[i]).value := StagedContent(refs[i], source).value])
  {
    assert refs[..i + 1][..i] == refs[..i];
  }

  /** The places of one import do not overlap, and its backup is neither centre nor journal. */
  predicate PlacedApart(p: Preview, dir: Path, backupNonce: string) {
    var d, b := Destination(p.pluginId), Backup(p.pluginId, backupNonce);
    && |dir| == 2 && Apart(d, dir) && Apart(b, dir) && Apart(d, b)
    && !(b <= CENTRE) && !(b <= JournalPath(ImportIdOf(p)))
  }

  predicate Stageable(p: Preview, source: Files) {
    StagedTree(p.files, EntryOf(p), source).Some?
  }

  /** The confirmation of a preview from the present source files. */
  function Transaction(p: Preview, backupNonce: string, source: Files): Import
    requires Stageable(p, source)
  {
    ImportOf(p, backupNonce, StagedTree(p.files, EntryOf(p), source).value)
  }

  /** Everything but the journal file is as a successful recovery leaves it. */
  ghost predicate LeftByRecovery(now: Files, fs: Files, c: Import) {
    forall x :: x != JournalPath(c.importId) ==> At(now, x) == At(Recovered(fs, c), x)
  }

  class ImportService {
    /** The files below the agent home. */
    var files: Files
    /** The files below the selected source root. */
    var source: Files
    var previews: map<string, Preview>

    constructor (files: Files, source: Files)
      ensures this.files == files && this.source == source && previews == map[]
    {
      this.files, this.source, previews := files, source, map[];
    }

    // ---------- File operations ----------

    method TryMkdir() returns (ok: bool) {
      ok := *;
    }

    method TryRead(x: Path) returns (text: Option<Content>, ok: bool)
      ensures ok ==> text == At(files, x)
      ensures !ok ==> text == None
    {
      ok := *;
      text := if ok then At(files, x) else None;
    }

    method TryWrite(x: Path, content: Content) returns (ok: bool)
      modifies this`files
      ensures forall y :: y != x ==> At(files, y) == At(old(files), y)
      ensures ok ==> At(files, x) == Some(content)
    {
      ok := *;
      var left: Option<Content> := *;
      files := WithFile(files, x, if ok then Some(content) else left);
    }

    method TryRename(a: Path, b: Path) returns (ok: bool)
      requires Apart(a, b)
      modifies this`files
      ensures ok ==> Exists(old(files), a) && !Exists(old(files), b) && files == Moved(old(files), a, b)
      ensures !ok ==> files == old(files)
    {
      ok := *;
      ok := ok && Exists(files, a) && !Exists(files, b);
      if ok {
        files := Moved(files, a, b);
      }
    }

    method TryErase(dir: Path) returns (ok: bool)
      modifies this`files
      ensures ok ==> files == Erased(old(files), dir)
      ensures forall x :: !(dir <= x) ==> At(files, x) == At(old(files), x)
    {
      ok := *;
      var left: set<Path> := *;
      files := if ok then Erased(files, dir) else map x | x in files && (x in left || !(dir <= x)) :: files[x];
    }

    method TryUnlink(x: Path) returns (ok: bool)
      modifies this`files
      ensures ok ==> files == WithFile(old(files), x, None)
      ensures !ok ==> files == old(files)
    {
      ok := *;
      if ok {
        files := WithFile(files, x, None);
      }
    }

    method TryStat(dir: Path) returns (found: bool, ok: bool)
      ensures found ==> Exists(files, dir)
      ensures ok ==> found == Exists(files, dir)
    {
      ok := *;
      found := ok && Exists(files, dir);
    }

    // ---------- Staging ----------

    /** Copies the previewed files and completes the manifest; touches nothing outside `dir`. */
    method Stage(p: Preview, dir: Path) returns (done: bool)
      requires !Exists(files, dir)
      modifies this`files
      ensures forall x :: !(dir <= x) ==> At(files, x) == At(old(files), x)
      ensures done ==> StagedTree(p.files, EntryOf(p), source).Some?
      ensures done ==> forall r :: At(files, dir + r) == At(StagedTree(p.files, EntryOf(p), source).value, r)
    {
      done := TryMkdir();
      if !done { return; }
      done := CopyAll(p.files, dir);
      if !done { return; }
      done := Complete(p, dir, StagedFiles(p.files, source).value);
    }

    method CopyAll(refs: seq<FileRef>, dir: Path) returns (done: bool)
      requires !Exists(files, dir)
      modifies this`files
      ensures forall x :: !(dir <= x) ==> At(files, x) == At(old(files), x)
      ensures done ==> StagedFiles(refs, source).Some?
      ensures done ==> forall r :: At(files, dir + r) == At(StagedFiles(refs, source).value, r)
    {
      assert forall r :: At(files, dir + r).None? by {
        forall r ensures At(files, dir + r).None? { assert dir <= dir + r; }
      }
      var i := 0;
      while i < |refs|
        invariant 0 <= i <= |refs|
        invariant forall x :: !(dir <= x) ==> At(files, x) == At(old(files), x)
        invariant StagedFiles(refs[..i], source).Some?
        invariant forall r :: At(files, dir + r) == At(StagedFiles(refs[..i], source).value, r)
      {
        done := CopyOne(refs[i], dir, StagedFiles(refs[..i], source).value);
        if !done { return; }
        StagedOneMore(refs, i, source);
        i := i + 1;
      }
      assert refs[..i] == refs;
      done := true;
    }

    method CopyOne(file: FileRef, dir: Path, ghost before: Files) returns (done: bool)
      requires forall r :: At(files, dir + r) == At(before, r)
      modifies this`files
      ensures forall x :: !(dir <= x) ==> At(files, x) == At(old(files), x)
      ensures done ==> TargetOf(file).Some? && StagedContent(file, source).Some? && !Obstructed(before, TargetOf(file).value)
      ensures done ==> forall r :: At(files, dir + r) == At(before[TargetOf(file).value := StagedContent(file, source).value], r)
    {
      var target := TargetOf(file);
      if target.None? { return false; }
      done := TryMkdir();
      if !done { return; }
      var current := At(source, file.path);
      if current != Some(file.hashed) || (file.kind == ManifestFile && !IsObject(current)) {
        return false;
      }
      var content := if file.kind == ManifestFile then JsonText(Obj(RedactFields(current.value.value.fields))) else current.value;
      done := WriteBelow(dir, target.value, content, before);
      if done && file.kind == Resource {
        var check, ok := TryRead(dir + target.value);
        done := ok && check == Some(file.hashed);
      }
    }

    method WriteBelow(dir: Path, rel: Path, content: Content, ghost before: Files) returns (done: bool)
      requires forall r :: At(files, dir + r) == At(before, r)
      modifies this`files
      ensures forall x :: !(dir <= x) ==> At(files, x) == At(old(files), x)
      ensures done ==> !Obstructed(before, rel)
      ensures done ==> forall r :: At(files, dir + r) == At(before[rel := content], r)
    {
      ObstructedBelow(files, dir, before, rel);
      if Obstructed(files, dir + rel) { return false; }
      done := TryWrite(dir + rel, content);
      if !done { return; }
      forall r ensures At(files, dir + r) == At(before[rel := content], r) {
        if dir + r == dir + rel {
          assert (dir + r)[|dir|..] == r && (dir + rel)[|dir|..] == rel;
        }
      }
    }

    method Complete(p: Preview, dir: Path, ghost copied: Files) returns (done: bool)
      requires StagedFiles(p.files, source) == Some(copied)
      requires forall r :: At(files, dir + r) == At(copied, r)
      modifies this`files
      ensures forall x :: !(dir <= x) ==> At(files, x) == At(old(files), x)
      ensures done ==> StagedTree(p.files, EntryOf(p), source).Some?
      ensures done ==> forall r :: At(files, dir + r) == At(StagedTree(p.files, EntryOf(p), source).value, r)
    {
      var text, ok := TryRead(dir + MANIFEST_PATH);
      if !ok || !IsObject(text) { return false; }
      var manifest := JsonText(Obj(Stamp(text.value.value.fields)));
      done := WriteBelow(dir, MANIFEST_PATH, manifest, copied);
      if !done { return; }
      done := TryMkdir();
      if !done { return; }
      done := WriteBelow(dir, MANIFEST_COPY, manifest, copied[MANIFEST_PATH := manifest]);
      if !done { return; }
      done := TryMkdir();
      if !done { return; }
      done := WriteBelow(dir, STAGED_CENTRE, JsonText(OwnCentre(EntryOf(p))),
        copied[MANIFEST_PATH := manifest][MANIFEST_COPY := manifest]);
    }

    // ---------- Confirmation ----------

    /**
      Imports the previewed plugin.  Without swallowed failures the outcome is all or nothing: the
      whole effect of the confirmation, or the files as they were.  Only a failure after the
      renames (`committed`) leaves something: the journal file may hold anything, and the centre
      is what the recovery saw of it.  With swallowed failures too an installed import has its whole
      effect, but for the centre, which counts as empty if it could not be read (`seen`).
     */
    method Confirm(token: string, now: int, stagingNonce: string, backupNonce: string)
      returns (result: Outcome, committed: bool, seen: bool, clean: bool)
      requires token in previews ==>
        !Exists(files, Staging(ImportIdOf(previews[token]), stagingNonce))
        && !Exists(files, Backup(previews[token].pluginId, backupNonce))
      modifies this`files
      ensures token !in previews || !Confirmable(previews[token], now) ==> result == Failed && files == old(files)
      ensures result.AlreadyInstalled? ==> files == old(files)
      ensures token in previews && Confirmable(previews[token], now) && clean ==>
        (result.AlreadyInstalled? <==> IsInstalled(old(files), ImportIdOf(previews[token])))
      ensures result.Installed? || committed ==> token in previews && Stageable(previews[token], source)
      ensures result.Installed? ==>
        files == Published(old(files), Transaction(previews[token], backupNonce, source), seen)
      ensures clean && result.Installed? ==> seen
      ensures result.Installed? && clean ==>
        files == Confirmed(old(files), Transaction(previews[token], backupNonce, source))
      ensures result.Installed? && clean ==> Ready(old(files), Transaction(previews[token], backupNonce, source))
      ensures result == Failed && clean && !committed ==> files == old(files)
      ensures result == Failed && clean && committed ==>
        LeftByRecovery(files, old(files), Transaction(previews[token], backupNonce, source))
    {
      committed, seen, clean := false, true, true;
      if token !in previews || !Confirmable(previews[token], now) {
        return Failed, committed, seen, clean;
      }
      var p := previews[token];
      var importId := ImportIdOf(p);
      var journal, read := TryRead(JournalPath(importId));
      if journal.Some? && journal.value.Record? && journal.value.journal.installed {
        return AlreadyInstalled(importId), committed, seen, read;
      }
      PlacesApart(p.pluginId, importId, stagingNonce, backupNonce);
      var done, ok;
      done, committed, seen, ok := Install(p, importId, Staging(importId, stagingNonce), backupNonce);
      result := if done then Installed(importId) else Failed;
      clean := read && ok;
    }

    method Install(p: Preview, importId: string, dir: Path, backupNonce: string)
      returns (done: bool, committed: bool, seen: bool, clean: bool)
      requires importId == ImportIdOf(p) && PlacedApart(p, dir, backupNonce)
      requires !Exists(files, dir) && !Exists(files, Backup(p.pluginId, backupNonce))
      modifies this`files
      ensures done || committed ==> Stageable(p, source)
      ensures done ==> files == Published(old(files), Transaction(p, backupNonce, source), seen)
      ensures done && clean ==> seen && UsableCentre(old(files), Transaction(p, backupNonce, source))
      ensures !done && clean && !committed ==> files == old(files)
      ensures !done && clean && committed ==> LeftByRecovery(files, old(files), Transaction(p, backupNonce, source))
    {
      var had;
      had, committed, clean := Prepare(p, dir, backupNonce);
      done, seen := false, true;
      if committed {
        var ok;
        done, seen, ok := Finish(p, importId, dir, had, backupNonce, old(files), Transaction(p, backupNonce, source));
        clean := clean && ok;
      }
    }

    /** Stages the import and swaps it in, or takes the staging directory away again. */
    method Prepare(p: Preview, dir: Path, backupNonce: string) returns (had: bool, done: bool, clean: bool)
      requires PlacedApart(p, dir, backupNonce)
      requires !Exists(files, dir) && !Exists(files, Backup(p.pluginId, backupNonce))
      modifies this`files
      ensures done ==> Stageable(p, source)
      ensures done ==> files == Committed(old(files), Transaction(p, backupNonce, source))
      ensures done ==> had == Exists(old(files), Destination(p.pluginId))
      ensures !done && clean ==> files == old(files)
    {
      had, clean := false, true;
      done := Stage(p, dir);
      if done {
        done := TryMkdir();
      }
      if done {
        had, done, clean := SwapIn(dir, Destination(p.pluginId), Backup(p.pluginId, backupNonce),
                                   old(files), Transaction(p, backupNonce, source));
      }
      if !done {
        var ok := TryErase(dir);
        clean := clean && ok;
        if clean { UnstagedAfter(old(files), dir, files); }
      }
    }

    /** Publishes a committed import, or recovers from the failure to do so. */
    method Finish(p: Preview, importId: string, dir: Path, had: bool, backupNonce: string, ghost fs: Files, ghost c: Import)
      returns (done: bool, seen: bool, clean: bool)
      requires PlacedApart(p, dir, backupNonce) && files == Committed(fs, c)
      requires !Exists(fs, dir) && !Exists(fs, Backup(p.pluginId, backupNonce)) && had == Exists(fs, Destination(p.pluginId))
      requires importId == c.importId == ImportIdOf(p) && c.pluginId == p.pluginId && c.backupNonce == backupNonce
      requires EntryOf(p) == c.entry && PathsOf(p.files) == c.files
      modifies this`files
      ensures done ==> files == Published(fs, c, seen)
      ensures done && clean ==> seen && UsableCentre(fs, c)
      ensures !done && clean ==> LeftByRecovery(files, fs, c)
    {
      var b := Backup(p.pluginId, backupNonce);
      var before: Option<Content>;
      before, done, seen, clean := Publish(p, importId, had, b, fs, c);
      if !done {
        var ok := Recover(dir, Destination(p.pluginId), b, had, before, fs, c);
        clean := clean && ok;
      }
    }

    /** The renames; when one fails, an old directory is put back. */
    method SwapIn(dir: Path, d: Path, b: Path, ghost fs: Files, ghost c: Import)
      returns (had: bool, done: bool, clean: bool)
      requires d == Destination(c.pluginId) && b == Backup(c.pluginId, c.backupNonce) && |dir| == 2
      requires Apart(d, dir) && Apart(b, dir) && Apart(d, b) && !Exists(fs, dir) && !Exists(fs, b)
      requires StagedOver(fs, files, dir, c.tree)
      modifies this`files
      ensures done ==> files == Committed(fs, c) && had == Exists(fs, d)
      ensures !done && clean ==> forall x :: !(dir <= x) ==> At(files, x) == At(fs, x)
    {
      had, clean := TryStat(d);
      ghost var staged := files;
      ExistsOutside(fs, staged, dir, d);
      done := true;
      if had {
        done := TryRename(d, b);
        if !done { return; }
      }
      ghost var saved := files;
      done := TryRename(dir, d);
      if done {
        RenamesCommit(fs, staged, c, dir);
      } else if had {
        var ok := TryRename(b, d);
        clean := clean && ok;
        if ok { MoveBackStaged(fs, staged, dir, d, b); }
      }
    }

    /**
      Lists the plugin in the centre and writes the journal.  A centre that cannot be read counts
      as none, so the other experts are kept exactly if it was read or there were none.
     */
    method Publish(p: Preview, importId: string, had: bool, b: Path, ghost fs: Files, ghost c: Import)
      returns (before: Option<Content>, done: bool, seen: bool, clean: bool)
      requires files == Committed(fs, c) && had == Exists(fs, Destination(c.pluginId))
      requires b == Backup(c.pluginId, c.backupNonce)
      requires importId == c.importId && p.pluginId == c.pluginId && EntryOf(p) == c.entry && PathsOf(p.files) == c.files
      modifies this`files
      ensures clean ==> before == At(Committed(fs, c), CENTRE)
      ensures done ==> files == Published(fs, c, seen)
      ensures done ==> var others := OtherExperts(ExpertsOf(At(Committed(fs, c), CENTRE)), c.pluginId);
        OtherExperts(ExpertsOf(At(files, CENTRE)), c.pluginId) == others <==> seen || others == []
      ensures clean ==> seen
      ensures done && clean ==> UsableCentre(fs, c)
      ensures forall x :: x != CENTRE && x != JournalPath(importId) ==> At(files, x) == CommittedAt(fs, c, x)
    {
      PlacesApart(p.pluginId, importId, "", c.backupNonce);
      var entry, paths := EntryOf(p), PathsOf(p.files);
      var text, ok;
      before, ok := TryRead(CENTRE);
      text, seen := TryRead(CENTRE);
      clean := seen && ok;
      done := text != Some(JsonText(Null));
      if !done { return; }
      done := TryMkdir();
      if !done { return; }
      done := TryWrite(CENTRE, CentreAfter(text, p.pluginId, entry));
      if !done { return; }
      done := TryMkdir();
      if !done { return; }
      var record := Journal(p.pluginId, true, paths, if had then Some(b) else None);
      done := TryWrite(JournalPath(importId), Record(record));
      if done {
        PublishedFrom(fs, c, files, seen);
        SeenKeepsExpertsIff(fs, c, seen);
      }
    }

    /** Takes the renames back and restores the centre as it was read after them. */
    method Recover(dir: Path, d: Path, b: Path, had: bool, before: Option<Content>, ghost fs: Files, ghost c: Import)
      returns (clean: bool)
      requires d == Destination(c.pluginId) && b == Backup(c.pluginId, c.backupNonce) && |dir| == 2
      requires Apart(d, dir) && Apart(b, dir) && Apart(d, b) && !Exists(fs, dir) && !Exists(fs, b)
      requires !(b <= CENTRE) && !(b <= JournalPath(c.importId)) && had == Exists(fs, d)
      requires forall x :: x != CENTRE && x != JournalPath(c.importId) ==> At(files, x) == CommittedAt(fs, c, x)
      modifies this`files
      ensures clean ==> forall x :: x != JournalPath(c.importId) ==>
        At(files, x) == if x == CENTRE then before else At(fs, x)
    {
      ghost var failed := files;
      clean := TryErase(dir);
      if !clean { return; }
      clean := TryErase(d);
      if !clean { return; }
      if !had {
        NothingBelow(fs, files, b);
      }
      var ok := TryRename(b, d);
      clean := ok || !had;
      if clean {
        forall x | x != CENTRE && x != JournalPath(c.importId) ensures At(files, x) == At(fs, x) {
          RecoveryRestores(fs, c, failed, dir, x);
        }
      }
      if before.None? {
        ok := TryUnlink(CENTRE);
      } else {
        ok := TryWrite(CENTRE, before.value);
      }
      clean := clean && ok;
    }

    // ---------- Rollback ----------

    /**
      Undoes the import on record.  The directory goes before the backup is looked for, so a
      record whose backup is missing, such as one rolled back before, loses the directory.
     */
    method Rollback(importId: string) returns (ok: bool, removed: bool, clean: bool)
      requires var j := JournalAt(files, importId);
        j.Some? && j.value.backup.Some? ==> Apart(j.value.backup.value, Destination(j.value.pluginId))
      modifies this`files
      ensures JournalAt(old(files), importId).None? ==> !ok && files == old(files)
      ensures ok ==> JournalAt(old(files), importId).Some?
      ensures ok && clean ==> files == RolledBack(old(files), importId)
      ensures removed && !ok ==> JournalAt(old(files), importId).Some?
      ensures removed && BackupMissing(old(files), importId) ==>
        !ok && files == Erased(old(files), Destination(JournalAt(old(files), importId).value.pluginId))
    {
      removed := false;
      var text, read := TryRead(JournalPath(importId));
      clean := true;
      if !(text.Some? && text.value.Record?) {
        return false, removed, clean;
      }
      var j := text.value.journal;
      var d := Destination(j.pluginId);
      ok := TryErase(d);
      if !ok { return; }
      removed := true;
      if j.backup.Some? {
        if BackupMissing(old(files), importId) {
          NothingBelow(old(files), files, j.backup.value);
        }
        ok := TryRename(j.backup.value, d);
        if !ok { return; }
      }
      ghost var restored := files;
      text, clean := TryRead(CENTRE);
      var next := CentreRolledBack(text, j.pluginId);
      if ListsExperts(text) {
        ok := TryWrite(CENTRE, next.value);
        if !ok { return; }
      }
      if clean { SameFiles(files, WithFile(restored, CENTRE, CentreRolledBack(At(restored, CENTRE), j.pluginId))); }
      ghost var listed := files;
      ok := TryWrite(JournalPath(importId), Record(j.(installed := false)));
      if ok { SameFiles(files, WithFile(listed, JournalPath(importId), Some(Record(j.(installed := false))))); }
    }
  }

  /** The record names a backup that is not there. */
  predicate BackupMissing(fs: Files, importId: string) {
    var j := JournalAt(fs, importId);
    j.Some? && j.value.backup.Some? && !Exists(fs, j.value.backup.value)
  }

  lemma PublishedFrom(fs: Files, c: Import, now: Files, seen: bool)
    requires At(now, JournalPath(c.importId)) == Some(Record(JournalOf(fs, c)))
    requires At(now, CENTRE)
          == Some(CentreAfter(if seen then At(Committed(fs, c), CENTRE) else None, c.pluginId, c.entry))
    requires forall x :: x != CENTRE && x != JournalPath(c.importId) ==> At(now, x) == CommittedAt(fs, c, x)
    ensures now == Published(fs, c, seen)
  {
    PlacesApart(c.pluginId, c.importId, "", c.backupNonce);
    forall x ensures At(now, x) == At(Published(fs, c, seen), x) {
      PublishedFiles(fs, c, seen, x);
    }
    SameFiles(now, Published(fs, c, seen));
  }

  lemma NothingBelow(fs: Files, now: Files, b: Path)
    requires !Exists(fs, b) && forall x :: b <= x ==> At(now, x) == At(fs, x) || At(now, x).None?
    ensures !Exists(now, b)
  {
    forall x | x in now ensures !(b <= x) {
      assert At(now, x).Some? && (b <= x ==> At(fs, x).None?);
    }
  }

  lemma ExistsOutside(fs: Files, staged: Files, dir: Path, d: Path)
    requires Apart(d, dir) && forall x :: !(dir <= x) ==> At(staged, x) == At(fs, x)
    ensures Exists(staged, d) == Exists(fs, d)
  {
    forall x | d <= x ensures x in fs <==> x in staged {
      assert d + x[|d|..] == x;
      ApartBelow(dir, d, x[|d|..]);
      assert At(staged, x) == At(fs, x);
    }
  }

  lemma MoveBackStaged(fs: Files, staged: Files, dir: Path, d: Path, b: Path)
    requires Apart(d, dir) && Apart(b, dir) && Apart(d, b) && !Exists(fs, b)
    requires forall x :: !(dir <= x) ==> At(staged, x) == At(fs, x)
    ensures Moved(Moved(staged, d, b), b, d) == staged
  {
    ExistsOutside(fs, staged, dir, b);
    MoveBack(staged, d, b);
  }

  lemma UnstagedAfter(fs: Files, dir: Path, now: Files)
    requires !Exists(fs, dir)
    requires forall x :: At(now, x) == if dir <= x then None else At(fs, x)
    ensures now == fs
  {
    SameFiles(now, fs);
  }
}
