/**
  Laws of the import transaction (electron/main/workbuddy-import.ts): confirmations undo like a
  stack, recovery restores what was there, and what a rollback out of turn does.
 */
module ImportLaws {
  import opened Common
  import opened Manifest
  import opened ImportSpec

  predicate IsInstalled(fs: Files, importId: string) {
    JournalAt(fs, importId).Some? && JournalAt(fs, importId).value.installed
  }

  /** The confirmation goes through: no installed journal, a fresh backup name, a usable centre. */
  ghost predicate Ready(fs: Files, c: Import) {
    && !IsInstalled(fs, c.importId)
    && !Exists(fs, Backup(c.pluginId, c.backupNonce))
    && UsableCentre(fs, c)
  }

  /** Reading the centre after the renames does not find the one JSON value that is no container. */
  predicate UsableCentre(fs: Files, c: Import) {
    At(Committed(fs, c), CENTRE) != Some(JsonText(Null))
  }

  ghost predicate AllReady(fs: Files, cs: seq<Import>)
    decreases |cs|
  {
    cs == [] || (Ready(fs, cs[0]) && AllReady(Confirmed(fs, cs[0]), cs[1..]))
  }

  /** Confirms all imports in turn, then rolls all of them back, the last one first. */
  function Unwound(fs: Files, cs: seq<Import>): Files
    decreases |cs|
  {
    if cs == [] then fs else RolledBack(Unwound(Confirmed(fs, cs[0]), cs[1..]), cs[0].importId)
  }

  ghost predicate IsJournalOf(cs: seq<Import>, x: Path) {
    exists k :: 0 <= k < |cs| && x == JournalPath(cs[k].importId)
  }

  // ---------- What a confirmation writes ----------

  lemma {:induction false} PublishedFiles(fs: Files, c: Import, seen: bool, x: Path)
    ensures At(Published(fs, c, seen), x) ==
      if x == JournalPath(c.importId) then Some(Record(JournalOf(fs, c)))
      else if x == CENTRE then
        Some(CentreAfter(if seen then At(Committed(fs, c), CENTRE) else None, c.pluginId, c.entry))
      else CommittedAt(fs, c, x)
  {
  }

  lemma {:induction false} ConfirmedFiles(fs: Files, c: Import, x: Path)
    ensures At(Confirmed(fs, c), x) ==
      if x == JournalPath(c.importId) then Some(Record(JournalOf(fs, c)))
      else if x == CENTRE then Some(CentreAfter(CentreSeen(fs, c), c.pluginId, c.entry))
      else CommittedAt(fs, c, x)
  {
    PublishedFiles(fs, c, true, x);
    CommittedCentre(fs, c);
  }

  /** Files outside the plugin's directory, its backup, the centre and the journals. */
  predicate Elsewhere(c: Import, x: Path) {
    !(Destination(c.pluginId) <= x) && !(Backup(c.pluginId, c.backupNonce) <= x) && x != CENTRE
  }

  lemma {:induction false} ConfirmedElsewhere(fs: Files, c: Import, x: Path)
    requires Elsewhere(c, x) && x != JournalPath(c.importId)
    ensures At(Confirmed(fs, c), x) == At(fs, x)
  {
    ConfirmedFiles(fs, c, x);
  }

  /** The centre file that a confirmation finds after its renames. */
  function CentreSeen(fs: Files, c: Import): Option<Content> {
    if c.pluginId == META then At(c.tree, CENTRE_TAIL) else At(fs, CENTRE)
  }

  lemma {:induction false} CommittedCentre(fs: Files, c: Import)
    ensures At(Committed(fs, c), CENTRE) == CentreSeen(fs, c)
  {
    PlacesApart(c.pluginId, c.importId, "", c.backupNonce);
    assert CENTRE[2..] == CENTRE_TAIL;
  }

  /** A file of the plugin directory is the centre file only for a plugin named like its directory. */
  lemma {:induction false} CentreInside(pluginId: string, r: Path)
    ensures Destination(pluginId) + r == CENTRE <==> pluginId == META && r == CENTRE_TAIL
  {
    var x := Destination(pluginId) + r;
    assert x[2..] == r && CENTRE[2..] == CENTRE_TAIL;
    assert x == CENTRE ==> x[1] == CENTRE[1];
    if pluginId == META && r == CENTRE_TAIL {
      assert x == CENTRE;
    }
  }

  /**
    After a confirmation the plugin directory is the staged tree and the centre lists the plugin
    once, at the end, after all other experts in their order; for a plugin that brings the centre
    file in its own directory those are the experts of that file.
   */
  lemma {:induction false} ConfirmedInstalls(fs: Files, c: Import)
    ensures forall r :: Destination(c.pluginId) + r != CENTRE ==>
      At(Confirmed(fs, c), Destination(c.pluginId) + r) == At(c.tree, r)
    ensures ExpertsOf(At(Confirmed(fs, c), CENTRE)) == OtherExperts(ExpertsOf(CentreSeen(fs, c)), c.pluginId) + [c.entry]
  {
    PlacesApart(c.pluginId, c.importId, "", c.backupNonce);
    forall r | Destination(c.pluginId) + r != CENTRE
      ensures At(Confirmed(fs, c), Destination(c.pluginId) + r) == At(c.tree, r)
    {
      var x := Destination(c.pluginId) + r;
      ConfirmedFiles(fs, c, x);
      assert Destination(c.pluginId) <= x && x[2..] == r;
    }
    ConfirmedFiles(fs, c, CENTRE);
    CentreAfterExperts(CentreSeen(fs, c), c.pluginId, c.entry);
  }

  /**
    A successful confirmation keeps all other experts, in order, exactly when the plugin's
    directory does not contain the centre file, or it brings a centre file with the same others.
    Its directory is exactly the staged tree under a like condition.
   */
  lemma {:induction false} ConfirmedInstallsIff(fs: Files, c: Import)
    ensures ExpertsOf(At(Confirmed(fs, c), CENTRE)) == OtherExperts(ExpertsOf(At(fs, CENTRE)), c.pluginId) + [c.entry]
        <==> (c.pluginId != META
              || OtherExperts(ExpertsOf(At(c.tree, CENTRE_TAIL)), META) == OtherExperts(ExpertsOf(At(fs, CENTRE)), META))
    ensures (forall r :: At(Confirmed(fs, c), Destination(c.pluginId) + r) == At(c.tree, r))
        <==> (c.pluginId != META
              || At(c.tree, CENTRE_TAIL) == Some(CentreAfter(At(c.tree, CENTRE_TAIL), META, c.entry)))
  {
    ConfirmedInstalls(fs, c);
    var seen, before := OtherExperts(ExpertsOf(CentreSeen(fs, c)), c.pluginId), OtherExperts(ExpertsOf(At(fs, CENTRE)), c.pluginId);
    assert (seen + [c.entry])[..|seen|] == seen && (before + [c.entry])[..|before|] == before;
    ConfirmedFiles(fs, c, CENTRE);
    PlacesApart(c.pluginId, c.importId, "", c.backupNonce);
    forall r ensures Destination(c.pluginId) + r == CENTRE <==> c.pluginId == META && r == CENTRE_TAIL {
      CentreInside(c.pluginId, r);
    }
  }

  /**
    When the centre could not be read, the confirmation keeps the other experts exactly if there
    were none.
   */
  lemma {:induction false} SeenKeepsExpertsIff(fs: Files, c: Import, seen: bool)
    requires IsExpertOf(c.entry, c.pluginId)
    ensures var others := OtherExperts(ExpertsOf(At(Committed(fs, c), CENTRE)), c.pluginId);
      OtherExperts(ExpertsOf(At(Published(fs, c, seen), CENTRE)), c.pluginId) == others <==> seen || others == []
  {
    var text := if seen then At(Committed(fs, c), CENTRE) else None;
    var kept := OtherExperts(ExpertsOf(text), c.pluginId);
    PlacesApart(c.pluginId, c.importId, "", c.backupNonce);
    PublishedFiles(fs, c, seen, CENTRE);
    CentreAfterExperts(text, c.pluginId, c.entry);
    OtherExpertsAppend(kept, c.entry, c.pluginId);
    OtherExpertsCommute(ExpertsOf(text), c.pluginId, c.pluginId);
    assert kept + [] == kept;
    UnlistedExperts(None);
  }

  lemma {:induction false} AssignedGet(fields: seq<Field>, key: string, value: Json)
    ensures Get(Assigned(fields, key, value), key) == Some(value)
  {
    if fields != [] && fields[0].key != key {
      AssignedGet(fields[1..], key, value);
    }
  }

  lemma {:induction false} CentreAfterExperts(text: Option<Content>, pluginId: string, entry: Json)
    ensures ExpertsOf(Some(CentreAfter(text, pluginId, entry))) == OtherExperts(ExpertsOf(text), pluginId) + [entry]
  {
    AssignedGet(Assigned(CentreFields(text), "categories", IMPORTED_CATEGORIES), "experts",
                Arr(OtherExperts(ExpertsOf(text), pluginId) + [entry]));
  }

  lemma {:induction false} UnlistedExperts(text: Option<Content>)
    requires !ListsExperts(text)
    ensures ExpertsOf(text) == []
  {
    if !(text.Some? && text.value.JsonText?) {
      var fields := CentreFields(text);
      assert fields == [Field("categories", Arr([])), Field("experts", Arr([]))];
      assert fields[0].key != "experts" && fields[1..] == [fields[1]];
      assert Get([fields[1]], "experts") == Some(Arr([]));
    }
  }

  lemma {:induction false} CentreRolledBackExperts(text: Option<Content>, pluginId: string)
    ensures ExpertsOf(CentreRolledBack(text, pluginId)) == OtherExperts(ExpertsOf(text), pluginId)
  {
    if ListsExperts(text) {
      AssignedGet(text.value.value.fields, "experts", Arr(OtherExperts(ExpertsOf(text), pluginId)));
    } else {
      UnlistedExperts(text);
    }
  }

  // ---------- Stack-like undo ----------

  lemma {:induction false} JournalNames(a: string, b: string)
    ensures JournalPath(a) == JournalPath(b) <==> a == b
  {
    assert JournalPath(a)[1][..|a|] == a;
    assert JournalPath(b)[1][..|b|] == b;
    if JournalPath(a) == JournalPath(b) {
      assert |a + ".json"| == |b + ".json"|;
    }
  }

  /** A confirmation leaves the installed records of other imports alone. */
  lemma {:induction false} ConfirmKeepsInstalled(fs: Files, c: Import, importId: string)
    requires IsInstalled(fs, importId) && Ready(fs, c)
    ensures JournalPath(c.importId) != JournalPath(importId)
    ensures JournalAt(Confirmed(fs, c), importId) == JournalAt(fs, importId)
  {
    JournalNames(c.importId, importId);
    PlacesApart(c.pluginId, importId, "", c.backupNonce);
    ConfirmedFiles(fs, c, JournalPath(importId));
  }

  /** While an import is installed no confirmation under its id goes through. */
  lemma {:induction false} InstalledIdNotReused(fs: Files, cs: seq<Import>, importId: string)
    requires AllReady(fs, cs)
    requires IsInstalled(fs, importId)
    ensures !IsJournalOf(cs, JournalPath(importId))
    decreases |cs|
  {
    if cs != [] {
      ConfirmKeepsInstalled(fs, cs[0], importId);
      InstalledIdNotReused(Confirmed(fs, cs[0]), cs[1..], importId);
      forall k | 0 <= k < |cs| ensures JournalPath(importId) != JournalPath(cs[k].importId) {
        assert k > 0 ==> cs[k] == cs[1..][k - 1];
      }
    }
  }

  lemma {:induction false} ApartBelow(a: Path, b: Path, t: Path)
    requires Apart(a, b)
    ensures !(a <= b + t)
  {
    if |a| <= |b| {
      assert (b + t)[..|a|] == b[..|a|];
    } else {
      assert (b + t)[..|b|] == b;
    }
  }

  /**
    What drawing new ids gives a stack of imports: import ids not installed and all different,
    backup names that are neither taken nor drawn twice nor the name of a plugin.
   */
  ghost predicate FreshDraws(fs: Files, cs: seq<Import>) {
    && (forall k :: 0 <= k < |cs| ==> FreshDraw(fs, cs[k]))
    && (forall i, j :: 0 <= i < j < |cs| ==> Independent(cs[i], cs[j]))
    && At(fs, CENTRE) != Some(JsonText(Null))
  }

  predicate FreshDraw(fs: Files, c: Import) {
    && !IsInstalled(fs, c.importId) && !Exists(fs, Backup(c.pluginId, c.backupNonce))
    && (c.pluginId == META ==> At(c.tree, CENTRE_TAIL) != Some(JsonText(Null)))
  }

  predicate Independent(c: Import, later: Import) {
    && c.importId != later.importId
    && Destination(c.pluginId) != Backup(later.pluginId, later.backupNonce)
    && Backup(c.pluginId, c.backupNonce) != Backup(later.pluginId, later.backupNonce)
  }

  lemma {:induction false} DrawStaysFresh(fs: Files, c: Import, later: Import)
    requires FreshDraw(fs, c) && FreshDraw(fs, later) && Independent(c, later)
    ensures FreshDraw(Confirmed(fs, c), later)
  {
    var b := Backup(later.pluginId, later.backupNonce);
    JournalNames(c.importId, later.importId);
    PlacesApart(c.pluginId, later.importId, "", c.backupNonce);
    ConfirmedElsewhere(fs, c, JournalPath(later.importId));
    forall x | b <= x ensures x !in Confirmed(fs, c) {
      assert x[..2] == b && x in fs ==> Exists(fs, b);
      PlacesOf(later, x);
      assert IsJournalPath(JournalPath(c.importId));
      ConfirmedElsewhere(fs, c, x);
      assert At(Confirmed(fs, c), x).None?;
    }
  }

  /** With fresh draws every confirmation of the stack goes through. */
  lemma {:induction false} FreshDrawsReady(fs: Files, cs: seq<Import>)
    requires FreshDraws(fs, cs)
    ensures AllReady(fs, cs)
    decreases |cs|
  {
    if cs != [] {
      var c, fs1 := cs[0], Confirmed(fs, cs[0]);
      PlacesApart(c.pluginId, c.importId, "", c.backupNonce);
      assert FreshDraw(fs, c);
      ConfirmedFiles(fs, c, CENTRE);
      forall k | 0 <= k < |cs[1..]| ensures FreshDraw(fs1, cs[1..][k]) {
        assert Independent(c, cs[k + 1]) && FreshDraw(fs, cs[k + 1]);
        DrawStaysFresh(fs, c, cs[k + 1]);
      }
      forall i, j | 0 <= i < j < |cs[1..]| ensures Independent(cs[1..][i], cs[1..][j]) {
        assert Independent(cs[i + 1], cs[j + 1]);
      }
      FreshDrawsReady(fs1, cs[1..]);
    }
  }

  ghost predicate IsJournalPath(x: Path) {
    exists id: string :: x == JournalPath(id)
  }

  lemma {:induction false} RolledBackFiles(fs: Files, importId: string, x: Path)
    requires JournalAt(fs, importId).Some?
    requires var j := JournalAt(fs, importId).value;
      j.backup.Some? ==> |j.backup.value| == 2 && Apart(Destination(j.pluginId), j.backup.value)
    requires x != CENTRE && x != JournalPath(importId)
    ensures var j := JournalAt(fs, importId).value;
      At(RolledBack(fs, importId), x) ==
        if Destination(j.pluginId) <= x then (if j.backup.Some? then At(fs, j.backup.value + x[2..]) else None)
        else if j.backup.Some? && j.backup.value <= x then None
        else At(fs, x)
  {
    var j := JournalAt(fs, importId).value;
    var d := Destination(j.pluginId);
    if j.backup.Some? && d <= x {
      ApartBelow(d, j.backup.value, x[2..]);
    }
  }

  /**
    Rolling back a confirmed import puts every file back, journals and centre aside, also when
    journals and the centre were written in between.
   */
  lemma {:induction false} RollbackUndoes(fs: Files, c: Import, later: Files, x: Path)
    requires Ready(fs, c)
    requires forall y :: y != CENTRE && !IsJournalPath(y) ==> At(later, y) == At(Confirmed(fs, c), y)
    requires JournalAt(later, c.importId) == Some(JournalOf(fs, c))
    requires x != CENTRE && !IsJournalPath(x)
    ensures At(RolledBack(later, c.importId), x) == At(fs, x)
  {
    var d := Destination(c.pluginId);
    PlacesApart(c.pluginId, c.importId, "", c.backupNonce);
    RolledBackFiles(later, c.importId, x);
    if d <= x {
      if BackupOf(fs, c).Some? {
        BackupHolds(fs, c, x);
      }
    } else {
      ConfirmedFiles(fs, c, x);
    }
  }

  /** The backup taken by a confirmation holds the old plugin directory. */
  lemma {:induction false} BackupHolds(fs: Files, c: Import, x: Path)
    requires BackupOf(fs, c).Some? && Destination(c.pluginId) <= x
    ensures var y := Backup(c.pluginId, c.backupNonce) + x[2..];
      y != CENTRE && !IsJournalPath(y) && At(Confirmed(fs, c), y) == At(fs, x)
  {
    var d, b := Destination(c.pluginId), Backup(c.pluginId, c.backupNonce);
    PlacesApart(c.pluginId, c.importId, "", c.backupNonce);
    var y := b + x[2..];
    assert y[2..] == x[2..] && d + x[2..] == x && b <= y;
    assert y[0] == b[0] && y[1] == b[1] && b[1] != CENTRE[1];
    ApartBelow(d, b, x[2..]);
    NotJournal(y);
    ConfirmedFiles(fs, c, y);
  }

  lemma {:induction false} NotJournal(x: Path)
    requires x != [] && x[0] == "workbuddy-experts"
    ensures !IsJournalPath(x)
  {
    assert |x[0]| == 17 && |"openbuddy-workbuddy-imports"| == 27;
  }

  /** Neither a confirmation nor its rollback touches the journals of other imports. */
  lemma {:induction false} OtherJournalsKept(fs: Files, c: Import, x: Path)
    requires IsJournalPath(x) && x != JournalPath(c.importId)
    ensures At(Confirmed(fs, c), x) == At(fs, x)
    ensures JournalAt(fs, c.importId).Some? && JournalAt(fs, c.importId).value.pluginId == c.pluginId
      && (JournalAt(fs, c.importId).value.backup.Some? ==>
            JournalAt(fs, c.importId).value.backup == Some(Backup(c.pluginId, c.backupNonce)))
      ==> At(RolledBack(fs, c.importId), x) == At(fs, x)
  {
    var id :| x == JournalPath(id);
    PlacesApart(c.pluginId, id, "", c.backupNonce);
    ConfirmedFiles(fs, c, x);
    var j := JournalAt(fs, c.importId);
    if j.Some? && j.value.pluginId == c.pluginId
       && (j.value.backup.Some? ==> j.value.backup == Some(Backup(c.pluginId, c.backupNonce))) {
      RolledBackFiles(fs, c.importId, x);
    }
  }

  lemma {:induction false} RestHasJournal(cs: seq<Import>, x: Path)
    requires cs != [] && !IsJournalOf(cs, x)
    ensures x != JournalPath(cs[0].importId) && !IsJournalOf(cs[1..], x)
  {
    assert forall k :: 0 <= k < |cs| - 1 ==> cs[1..][k] == cs[k + 1];
  }

  lemma {:induction false} UnwindingHead(fs: Files, c: Import, later: Files, x: Path)
    requires Ready(fs, c) && x != CENTRE && x != JournalPath(c.importId)
    requires forall y :: y != CENTRE && !IsJournalPath(y) ==> At(later, y) == At(Confirmed(fs, c), y)
    requires JournalAt(later, c.importId) == Some(JournalOf(fs, c))
    requires IsJournalPath(x) ==> At(later, x) == At(Confirmed(fs, c), x)
    ensures At(RolledBack(later, c.importId), x) == At(fs, x)
  {
    if IsJournalPath(x) {
      OtherJournalsKept(fs, c, x);
      OtherJournalsKept(later, c, x);
    } else {
      RollbackUndoes(fs, c, later, x);
    }
  }

  /** The journal of the first import is still there when its turn to be rolled back comes. */
  lemma {:induction false} HeadJournal(fs: Files, c: Import, later: Files)
    requires At(later, JournalPath(c.importId)) == At(Confirmed(fs, c), JournalPath(c.importId))
    ensures JournalAt(later, c.importId) == Some(JournalOf(fs, c))
    ensures JournalAt(Confirmed(fs, c), c.importId) == Some(JournalOf(fs, c))
  {
    ConfirmedFiles(fs, c, JournalPath(c.importId));
  }

  /** A stack of imports, of any plugins, unwound in reverse order leaves every other file as it was. */
  lemma {:induction false} UnwindingRestores(fs: Files, cs: seq<Import>, x: Path)
    requires AllReady(fs, cs) && x != CENTRE && !IsJournalOf(cs, x)
    ensures At(Unwound(fs, cs), x) == At(fs, x)
    decreases |cs|
  {
    if cs != [] {
      var c, rest, fs1 := cs[0], cs[1..], Confirmed(fs, cs[0]);
      var later := Unwound(fs1, rest);
      forall y | y != CENTRE && !IsJournalOf(rest, y) ensures At(later, y) == At(fs1, y) {
        UnwindingRestores(fs1, rest, y);
      }
      HeadJournal(fs, c, fs1);
      InstalledIdNotReused(fs1, rest, c.importId);
      PlacesApart(c.pluginId, c.importId, "", c.backupNonce);
      HeadJournal(fs, c, later);
      RestHasJournal(cs, x);
      UnwindingHead(fs, c, later, x);
    }
  }

  // ---------- The centre under undo ----------

  predicate ListedIn(items: seq<Json>, cs: seq<Import>) {
    exists i, k :: 0 <= i < |items| && 0 <= k < |cs| && IsExpertOf(items[i], cs[k].pluginId)
  }

  function ExpertsWithout(items: seq<Json>, cs: seq<Import>): seq<Json>
    decreases |cs|
  {
    if cs == [] then items else OtherExperts(ExpertsWithout(items, cs[1..]), cs[0].pluginId)
  }

  lemma {:induction false} OtherExpertsCommute(items: seq<Json>, p: string, q: string)
    ensures OtherExperts(OtherExperts(items, p), q) == OtherExperts(OtherExperts(items, q), p)
    ensures OtherExperts(OtherExperts(items, p), p) == OtherExperts(items, p)
  {
    if items != [] {
      OtherExpertsCommute(items[1..], p, q);
    }
  }

  lemma {:induction false} OtherExpertsAppend(items: seq<Json>, entry: Json, p: string)
    ensures OtherExperts(items + [entry], p) == OtherExperts(items, p) + (if IsExpertOf(entry, p) then [] else [entry])
  {
    if items == [] {
      assert items + [entry] == [entry];
    } else {
      OtherExpertsAppend(items[1..], entry, p);
      assert (items + [entry])[1..] == items[1..] + [entry];
    }
  }

  lemma {:induction false} ExpertsWithoutCommutes(items: seq<Json>, cs: seq<Import>, p: string)
    ensures OtherExperts(ExpertsWithout(items, cs), p) == ExpertsWithout(OtherExperts(items, p), cs)
    decreases |cs|
  {
    if cs != [] {
      ExpertsWithoutCommutes(items, cs[1..], p);
      OtherExpertsCommute(ExpertsWithout(items, cs[1..]), cs[0].pluginId, p);
    }
  }

  lemma {:induction false} EntryGone(before: seq<Json>, entry: Json, p: string, rest: seq<Import>)
    requires IsExpertOf(entry, p)
    ensures OtherExperts(ExpertsWithout(OtherExperts(before, p) + [entry], rest), p)
         == OtherExperts(ExpertsWithout(before, rest), p)
  {
    var kept := OtherExperts(before, p);
    ExpertsWithoutCommutes(kept + [entry], rest, p);
    OtherExpertsAppend(kept, entry, p);
    OtherExpertsCommute(before, p, p);
    assert kept + [] == kept;
    ExpertsWithoutCommutes(before, rest, p);
  }

  lemma {:induction false} LaterJournal(fs: Files, cs: seq<Import>)
    requires cs != [] && AllReady(fs, cs)
    ensures JournalAt(Unwound(Confirmed(fs, cs[0]), cs[1..]), cs[0].importId) == Some(JournalOf(fs, cs[0]))
  {
    var c, fs1 := cs[0], Confirmed(fs, cs[0]);
    HeadJournal(fs, c, fs1);
    PlacesApart(c.pluginId, c.importId, "", c.backupNonce);
    InstalledIdNotReused(fs1, cs[1..], c.importId);
    UnwindingRestores(fs1, cs[1..], JournalPath(c.importId));
    HeadJournal(fs, c, Unwound(fs1, cs[1..]));
  }

  /**
    The imports that show in the centre after an undo: those up to the first whose directory
    contains the centre file, for its backup brings the centre of that moment back.
   */
  function UpToMeta(cs: seq<Import>): seq<Import> {
    if cs == [] then []
    else if cs[0].pluginId == META then [cs[0]]
    else [cs[0]] + UpToMeta(cs[1..])
  }

  /** Rolling back an import whose directory contains the centre file. */
  lemma {:induction false} MetaCentre(fs: Files, importId: string)
    requires JournalAt(fs, importId).Some? && JournalAt(fs, importId).value.pluginId == META
    requires var j := JournalAt(fs, importId).value;
      j.backup.Some? ==> |j.backup.value| == 2 && Apart(Destination(META), j.backup.value)
    ensures var backup := JournalAt(fs, importId).value.backup;
      At(RolledBack(fs, importId), CENTRE)
        == CentreRolledBack(if backup.Some? then At(fs, backup.value + CENTRE_TAIL) else None, META)
  {
    var backup := JournalAt(fs, importId).value.backup;
    PlacesApart(META, importId, "", "");
    assert CENTRE[2..] == CENTRE_TAIL;
    if backup.Some? {
      ApartBelow(Destination(META), backup.value, CENTRE_TAIL);
    }
  }

  /** Its backup holds the centre of before, over all later imports and their undoing. */
  lemma {:induction false} MetaBackupKept(fs: Files, cs: seq<Import>)
    requires cs != [] && cs[0].pluginId == META && AllReady(fs, cs) && BackupOf(fs, cs[0]).Some?
    ensures At(Unwound(Confirmed(fs, cs[0]), cs[1..]), Backup(META, cs[0].backupNonce) + CENTRE_TAIL) == At(fs, CENTRE)
  {
    var c := cs[0];
    var y := Backup(META, c.backupNonce) + CENTRE_TAIL;
    assert CENTRE[2..] == CENTRE_TAIL && Destination(META) <= CENTRE by {
      PlacesApart(META, c.importId, "", c.backupNonce);
    }
    BackupHolds(fs, c, CENTRE);
    NoJournalOf(cs[1..], y);
    UnwindingRestores(Confirmed(fs, c), cs[1..], y);
  }

  lemma {:induction false} MetaRolledBack(fs: Files, cs: seq<Import>)
    requires cs != [] && cs[0].pluginId == META && AllReady(fs, cs)
    ensures At(Unwound(fs, cs), CENTRE) == CentreRolledBack(At(fs, CENTRE), META)
  {
    var c, later := cs[0], Unwound(Confirmed(fs, cs[0]), cs[1..]);
    LaterJournal(fs, cs);
    PlacesApart(META, c.importId, "", c.backupNonce);
    MetaCentre(later, c.importId);
    if BackupOf(fs, c).Some? {
      MetaBackupKept(fs, cs);
    } else {
      assert CENTRE in fs ==> Exists(fs, Destination(META));
    }
  }

  lemma {:induction false} NoJournalOf(cs: seq<Import>, x: Path)
    requires !IsJournalPath(x)
    ensures !IsJournalOf(cs, x)
  {
  }

  lemma {:induction false} UndoneInCentre(fs: Files, c: Import, later: Files, rest: seq<Import>)
    requires c.pluginId != META && IsExpertOf(c.entry, c.pluginId)
    requires JournalAt(later, c.importId) == Some(JournalOf(fs, c))
    requires ExpertsOf(At(later, CENTRE)) == ExpertsWithout(ExpertsOf(At(Confirmed(fs, c), CENTRE)), rest)
    ensures ExpertsOf(At(RolledBack(later, c.importId), CENTRE))
         == OtherExperts(ExpertsWithout(ExpertsOf(At(fs, CENTRE)), rest), c.pluginId)
  {
    ConfirmedInstalls(fs, c);
    PlacesApart(c.pluginId, c.importId, "", c.backupNonce);
    RolledBackCentre(later, c.importId);
    EntryGone(ExpertsOf(At(fs, CENTRE)), c.entry, c.pluginId, rest);
  }

  /** Unwinding leaves the experts of none of those plugins, and all others in their order. */
  lemma {:induction false} UnwindingExperts(fs: Files, cs: seq<Import>)
    requires AllReady(fs, cs)
    requires forall k :: 0 <= k < |cs| ==> IsExpertOf(cs[k].entry, cs[k].pluginId)
    ensures ExpertsOf(At(Unwound(fs, cs), CENTRE)) == ExpertsWithout(ExpertsOf(At(fs, CENTRE)), UpToMeta(cs))
    decreases |cs|
  {
    if cs != [] {
      var c := cs[0];
      if c.pluginId == META {
        MetaRolledBack(fs, cs);
        CentreRolledBackExperts(At(fs, CENTRE), META);
      } else {
        UnwindingExperts(Confirmed(fs, c), cs[1..]);
        LaterJournal(fs, cs);
        UndoneInCentre(fs, c, Unwound(Confirmed(fs, c), cs[1..]), UpToMeta(cs[1..]));
        assert UpToMeta(cs)[1..] == UpToMeta(cs[1..]);
      }
    }
  }

  lemma {:induction false} RolledBackCentre(fs: Files, importId: string)
    requires JournalAt(fs, importId).Some?
    requires var j := JournalAt(fs, importId).value;
      && !(Destination(j.pluginId) <= CENTRE)
      && (j.backup.Some? ==> |j.backup.value| == 2 && !(j.backup.value <= CENTRE) && Apart(Destination(j.pluginId), j.backup.value))
      && JournalPath(importId) != CENTRE
    ensures ExpertsOf(At(RolledBack(fs, importId), CENTRE))
         == OtherExperts(ExpertsOf(At(fs, CENTRE)), JournalAt(fs, importId).value.pluginId)
  {
    CentreRolledBackExperts(At(fs, CENTRE), JournalAt(fs, importId).value.pluginId);
  }

  lemma {:induction false} OtherExpertsIff(items: seq<Json>, p: string)
    ensures |OtherExperts(items, p)| <= |items|
    ensures OtherExperts(items, p) == items <==> forall i :: 0 <= i < |items| ==> !IsExpertOf(items[i], p)
    ensures |OtherExperts(items, p)| == |items| ==> OtherExperts(items, p) == items
  {
    if items != [] {
      OtherExpertsIff(items[1..], p);
      assert forall i :: 0 <= i < |items| - 1 ==> items[1..][i] == items[i + 1];
    }
  }

  lemma {:induction false} ExpertsWithoutIff(items: seq<Json>, cs: seq<Import>)
    ensures |ExpertsWithout(items, cs)| <= |items|
    ensures ExpertsWithout(items, cs) == items <==> !ListedIn(items, cs)
    decreases |cs|
  {
    if cs != [] {
      var rest := cs[1..];
      ExpertsWithoutIff(items, rest);
      OtherExpertsIff(ExpertsWithout(items, rest), cs[0].pluginId);
      OtherExpertsIff(items, cs[0].pluginId);
      assert forall k :: 0 <= k < |rest| ==> rest[k] == cs[k + 1];
      assert ListedIn(items, rest) ==> ListedIn(items, cs);
      if ExpertsWithout(items, cs) == items {
        ExpertsWithoutShorter(items, rest);
        assert ExpertsWithout(items, rest) == items;
      }
    }
  }

  lemma {:induction false} ExpertsWithoutShorter(items: seq<Json>, cs: seq<Import>)
    ensures |ExpertsWithout(items, cs)| <= |items|
    ensures |ExpertsWithout(items, cs)| == |items| ==> ExpertsWithout(items, cs) == items
    decreases |cs|
  {
    if cs != [] {
      ExpertsWithoutShorter(items, cs[1..]);
      OtherExpertsIff(ExpertsWithout(items, cs[1..]), cs[0].pluginId);
    }
  }

  /** Undo restores the list of experts exactly when none of those plugins was listed before. */
  lemma {:induction false} UnwindingRestoresExpertsIff(fs: Files, cs: seq<Import>)
    requires AllReady(fs, cs)
    requires forall k :: 0 <= k < |cs| ==> IsExpertOf(cs[k].entry, cs[k].pluginId)
    ensures ExpertsOf(At(Unwound(fs, cs), CENTRE)) == ExpertsOf(At(fs, CENTRE))
        <==> !ListedIn(ExpertsOf(At(fs, CENTRE)), UpToMeta(cs))
  {
    UnwindingExperts(fs, cs);
    ExpertsWithoutIff(ExpertsOf(At(fs, CENTRE)), UpToMeta(cs));
  }

  // ---------- A second rollback, and recovery ----------

  /** The backup still holds the directory as it was, if there was one. */
  ghost predicate BackupIntact(fs: Files, c: Import, later: Files) {
    BackupOf(fs, c).Some? ==>
      forall x :: Destination(c.pluginId) <= x && x != CENTRE ==>
        At(later, Backup(c.pluginId, c.backupNonce) + x[2..]) == At(fs, x)
  }

  /** Nothing stands at the backup's place if none was taken. */
  ghost predicate NothingInBackupPlace(fs: Files, c: Import, later: Files) {
    BackupOf(fs, c).None? ==>
      forall x :: Backup(c.pluginId, c.backupNonce) <= x ==> At(later, x).None?
  }

  /** The file at `x` after a rollback at `later`. */
  function RolledBackTo(fs: Files, c: Import, later: Files, x: Path): Option<Content> {
    if Destination(c.pluginId) <= x then
      if BackupOf(fs, c).Some? then At(later, Backup(c.pluginId, c.backupNonce) + x[2..]) else None
    else if BackupOf(fs, c).Some? && Backup(c.pluginId, c.backupNonce) <= x then None
    else At(later, x)
  }

  lemma {:induction false} RolledBackAt(fs: Files, c: Import, later: Files, x: Path)
    requires JournalAt(later, c.importId) == Some(JournalOf(fs, c)) && x != CENTRE && x != JournalPath(c.importId)
    ensures At(RolledBack(later, c.importId), x) == RolledBackTo(fs, c, later, x)
  {
    PlacesApart(c.pluginId, c.importId, "", c.backupNonce);
    RolledBackFiles(later, c.importId, x);
  }

  /** Neither the plugin's directory nor its backup holds a journal, and the two do not meet. */
  lemma {:induction false} PlacesOf(c: Import, x: Path)
    ensures Destination(c.pluginId) <= x ==> !IsJournalPath(x) && !(Backup(c.pluginId, c.backupNonce) <= x)
    ensures Backup(c.pluginId, c.backupNonce) <= x ==> !IsJournalPath(x) && x != CENTRE
  {
    PlacesApart(c.pluginId, c.importId, "", c.backupNonce);
    if Destination(c.pluginId) <= x || Backup(c.pluginId, c.backupNonce) <= x {
      assert x[0] == "workbuddy-experts";
      NotJournal(x);
    }
  }

  /** The condition of the law below. */
  ghost predicate Undoable(fs: Files, c: Import, later: Files) {
    && (forall x :: Elsewhere(c, x) && !IsJournalPath(x) ==> At(later, x) == At(fs, x))
    && BackupIntact(fs, c, later) && NothingInBackupPlace(fs, c, later)
  }

  lemma {:induction false} UndoneIfUndoable(fs: Files, c: Import, later: Files, x: Path)
    requires !Exists(fs, Backup(c.pluginId, c.backupNonce)) && Undoable(fs, c, later) && x != CENTRE && !IsJournalPath(x)
    ensures RolledBackTo(fs, c, later, x) == At(fs, x)
  {
    PlacesOf(c, x);
    if Destination(c.pluginId) <= x {
      assert x in fs ==> Exists(fs, Destination(c.pluginId));
    } else if Backup(c.pluginId, c.backupNonce) <= x {
      assert At(fs, x).None?;
    }
  }

  lemma {:induction false} UndoableIfUndone(fs: Files, c: Import, later: Files)
    requires !Exists(fs, Backup(c.pluginId, c.backupNonce))
    requires forall x :: x != CENTRE && !IsJournalPath(x) ==> RolledBackTo(fs, c, later, x) == At(fs, x)
    ensures Undoable(fs, c, later)
  {
    forall x | Elsewhere(c, x) && !IsJournalPath(x) ensures At(later, x) == At(fs, x) {
      assert RolledBackTo(fs, c, later, x) == At(fs, x);
    }
    if BackupOf(fs, c).Some? {
      forall x | Destination(c.pluginId) <= x && x != CENTRE
        ensures At(later, Backup(c.pluginId, c.backupNonce) + x[2..]) == At(fs, x)
      {
        PlacesOf(c, x);
        assert RolledBackTo(fs, c, later, x) == At(fs, x);
      }
    } else {
      forall x | Backup(c.pluginId, c.backupNonce) <= x ensures At(later, x).None? {
        PlacesOf(c, x);
        assert RolledBackTo(fs, c, later, x) == At(fs, x) && At(fs, x).None?;
      }
    }
  }

  /**
    At any later time, a rollback brings back the files from before the import, journals and centre
    aside, exactly when the files elsewhere are as before and the backup is intact.  What stands in
    the plugin's directory by then plays no part: it is removed.
   */
  lemma {:induction false} RollbackRestoresIff(fs: Files, c: Import, later: Files)
    requires Ready(fs, c) && JournalAt(later, c.importId) == Some(JournalOf(fs, c))
    ensures (forall x :: x != CENTRE && !IsJournalPath(x) ==> At(RolledBack(later, c.importId), x) == At(fs, x))
        <==> Undoable(fs, c, later)
  {
    forall x | x != CENTRE && !IsJournalPath(x)
      ensures At(RolledBack(later, c.importId), x) == RolledBackTo(fs, c, later, x)
    {
      assert IsJournalPath(JournalPath(c.importId));
      RolledBackAt(fs, c, later, x);
    }
    if Undoable(fs, c, later) {
      forall x | x != CENTRE && !IsJournalPath(x) ensures RolledBackTo(fs, c, later, x) == At(fs, x) {
        UndoneIfUndoable(fs, c, later, x);
      }
    } else if forall x :: x != CENTRE && !IsJournalPath(x) ==> At(RolledBack(later, c.importId), x) == At(fs, x) {
      forall x | x != CENTRE && !IsJournalPath(x) ensures RolledBackTo(fs, c, later, x) == At(fs, x) {
        assert At(RolledBack(later, c.importId), x) == At(fs, x);
      }
      UndoableIfUndone(fs, c, later);
    }
  }

  /**
    Of two imports of one plugin the older is rolled back first: the newer directory is gone, for
    the one from before both, and yet the newer import stays on record as installed.
   */
  lemma {:induction false} OlderRollbackDropsNewer(fs: Files, a: Import, b: Import, r: Path)
    requires Ready(fs, a) && Ready(Confirmed(fs, a), b) && b.pluginId == a.pluginId && b.backupNonce != a.backupNonce
    requires Destination(a.pluginId) + r != CENTRE
    ensures var t := RolledBack(Confirmed(Confirmed(fs, a), b), a.importId);
      At(t, Destination(b.pluginId) + r) == At(fs, Destination(a.pluginId) + r) && IsInstalled(t, b.importId)
  {
    var fs1 := Confirmed(fs, a);
    HeadJournal(fs, a, fs1);
    ConfirmKeepsInstalled(fs1, b, a.importId);
    if BackupOf(fs, a).Some? {
      NewerKeepsBackup(fs, a, b, r);
    }
    PlacesOf(a, Destination(a.pluginId) + r);
    assert IsJournalPath(JournalPath(a.importId));
    RolledBackAt(fs, a, Confirmed(fs1, b), Destination(a.pluginId) + r);
    assert Destination(a.pluginId) + r in fs ==> Exists(fs, Destination(a.pluginId));
    NewerStaysOnRecord(fs, a, b);
  }

  /** The newer import leaves the backup of the older one alone. */
  lemma {:induction false} NewerKeepsBackup(fs: Files, a: Import, b: Import, r: Path)
    requires b.pluginId == a.pluginId && b.backupNonce != a.backupNonce && BackupOf(fs, a).Some?
    ensures At(Confirmed(Confirmed(fs, a), b), Backup(a.pluginId, a.backupNonce) + r)
         == At(fs, Destination(a.pluginId) + r)
  {
    var x, y := Destination(a.pluginId) + r, Backup(a.pluginId, a.backupNonce) + r;
    assert x[2..] == r && Destination(a.pluginId) <= x;
    BackupHolds(fs, a, x);
    BackupElsewhere(a, b, r);
    PlacesOf(a, y);
    assert IsJournalPath(JournalPath(b.importId));
    ConfirmedElsewhere(Confirmed(fs, a), b, y);
  }

  lemma {:induction false} BackupElsewhere(a: Import, b: Import, r: Path)
    requires b.pluginId == a.pluginId && b.backupNonce != a.backupNonce
    ensures Elsewhere(b, Backup(a.pluginId, a.backupNonce) + r)
  {
    PlacesOf(a, Backup(a.pluginId, a.backupNonce) + r);
    BackupNames(a.pluginId, a.backupNonce, b.backupNonce);
    ApartBelow(Backup(b.pluginId, b.backupNonce), Backup(a.pluginId, a.backupNonce), r);
  }

  lemma {:induction false} NewerStaysOnRecord(fs: Files, a: Import, b: Import)
    requires Ready(Confirmed(fs, a), b) && JournalAt(Confirmed(Confirmed(fs, a), b), a.importId) == Some(JournalOf(fs, a))
    requires b.importId != a.importId
    ensures IsInstalled(RolledBack(Confirmed(Confirmed(fs, a), b), a.importId), b.importId)
  {
    var fs2, x := Confirmed(Confirmed(fs, a), b), JournalPath(b.importId);
    JournalNames(a.importId, b.importId);
    HeadJournal(Confirmed(fs, a), b, fs2);
    PlacesApart(a.pluginId, b.importId, "", a.backupNonce);
    RolledBackAt(fs, a, fs2, x);
  }

  lemma {:induction false} BackupNames(pluginId: string, m: string, n: string)
    requires m != n
    ensures Apart(Backup(pluginId, m), Backup(pluginId, n))
  {
    var a, b := pluginId + ".backup-" + m, pluginId + ".backup-" + n;
    assert a[|pluginId| + 8..] == m && b[|pluginId| + 8..] == n;
    assert Backup(pluginId, m)[1] == a && Backup(pluginId, n)[1] == b;
  }

  /**
    Two confirmations of one preview that overlap can both find no record and install one after the
    other.  The record is then the second one's, whose backup is the first install: rolling back
    leaves the plugin as first installed, and so restores the directory from before both exactly
    when that held the same.
   */
  lemma {:induction false} OverlappingConfirms(fs: Files, a: Import, b: Import)
    requires b.pluginId == a.pluginId && b.importId == a.importId && b.backupNonce != a.backupNonce
    requires a.tree != map[]
    ensures var t, d := RolledBack(Confirmed(Confirmed(fs, a), b), a.importId), Destination(a.pluginId);
      && (forall r :: d + r != CENTRE ==> At(t, d + r) == At(a.tree, r))
      && ((forall r :: d + r != CENTRE ==> At(t, d + r) == At(fs, d + r))
            <==> forall r :: d + r != CENTRE ==> At(a.tree, r) == At(fs, d + r))
  {
    var fs1 := Confirmed(fs, a);
    var fs2 := Confirmed(fs1, b);
    var d := Destination(a.pluginId);
    HeadJournal(fs1, b, fs2);
    InstalledExists(fs, a);
    forall r | d + r != CENTRE ensures At(RolledBack(fs2, a.importId), d + r) == At(a.tree, r) {
      var x := d + r;
      assert d <= x && x[2..] == r;
      PlacesOf(a, x);
      assert IsJournalPath(JournalPath(a.importId));
      RolledBackAt(fs1, b, fs2, x);
      BackupHolds(fs1, b, x);
      ConfirmedInstalls(fs, a);
    }
  }

  lemma {:induction false} InstalledExists(fs: Files, c: Import)
    requires c.tree != map[]
    ensures Exists(Confirmed(fs, c), Destination(c.pluginId))
  {
    var r :| r in c.tree;
    var x := Destination(c.pluginId) + r;
    assert Destination(c.pluginId) <= x && x[2..] == r;
    ConfirmedFiles(fs, c, x);
    PlacesOf(c, x);
    assert IsJournalPath(JournalPath(c.importId));
    assert At(Confirmed(fs, c), x).Some?;
  }

  /**
    A record without a backup can be rolled back any number of times, whatever its status: each
    time the rollback removes whatever is in the plugin's directory by then.
   */
  lemma {:induction false} RollbackWithoutBackup(later: Files, importId: string, r: Path)
    requires JournalAt(later, importId).Some? && JournalAt(later, importId).value.backup.None?
    ensures var p := JournalAt(later, importId).value.pluginId;
      && At(RolledBack(later, importId), Destination(p) + r) == None
      && JournalAt(RolledBack(later, importId), importId) == Some(JournalAt(later, importId).value.(installed := false))
  {
    var j := JournalAt(later, importId).value;
    PlacesApart(j.pluginId, importId, "", "");
    assert Destination(j.pluginId) <= Destination(j.pluginId) + r;
    CentreInside(j.pluginId, r);
  }

  /** After its rollback a record that had a backup no longer finds it. */
  lemma {:induction false} BackupUsedUp(fs: Files, importId: string)
    requires JournalAt(fs, importId).Some? && JournalAt(fs, importId).value.backup.Some?
    requires var j := JournalAt(fs, importId).value;
      |j.backup.value| == 2 && Apart(Destination(j.pluginId), j.backup.value)
      && !(j.backup.value <= CENTRE) && !(j.backup.value <= JournalPath(importId))
    ensures !Exists(RolledBack(fs, importId), JournalAt(fs, importId).value.backup.value)
  {
    var b := JournalAt(fs, importId).value.backup.value;
    forall x | x in RolledBack(fs, importId) ensures !(b <= x) {
      if x != CENTRE && x != JournalPath(importId) {
        RolledBackFiles(fs, importId, x);
      }
    }
  }

  /**
    Recovery brings the centre file back exactly when the plugin's directory does not contain
    it, or the staged directory happens to hold the same file there.
   */
  lemma {:induction false} RecoveryRestoresIff(fs: Files, c: Import)
    ensures Recovered(fs, c) == fs
        <==> (c.pluginId != META || At(c.tree, CENTRE_TAIL) == At(fs, CENTRE))
  {
    PlacesApart(c.pluginId, c.importId, "", c.backupNonce);
    CommittedCentre(fs, c);
    var r := Recovered(fs, c);
    if At(Committed(fs, c), CENTRE) == At(fs, CENTRE) {
      SameFiles(r, fs);
    } else {
      assert At(r, CENTRE) != At(fs, CENTRE);
    }
  }
}
