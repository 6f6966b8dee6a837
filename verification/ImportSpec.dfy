/**
  The import transaction of electron/main/workbuddy-import.ts: what a confirmed import and its
  rollback make of the files under the agent home, as functions on a map from paths to contents.
 */
module ImportSpec {
  import opened Common
  import opened Manifest

  // ---------- Files ----------

  /** A path below the agent home, by segments. */
  type Path = seq<string>
  /** A text that parses as JSON, a journal record, or any other bytes. */
  datatype Content = JsonText(value: Json) | Record(journal: Journal) | Bytes(data: string)
  datatype Journal = Journal(pluginId: string, installed: bool, files: seq<Path>, backup: Option<Path>)
  type Files = map<Path, Content>

  function At(fs: Files, x: Path): Option<Content> {
    if x in fs then Some(fs[x]) else None
  }

  predicate Exists(fs: Files, dir: Path) {
    exists x :: x in fs && dir <= x
  }

  /** Recursive removal. */
  function Erased(fs: Files, dir: Path): (r: Files)
    ensures forall x :: At(r, x) == if dir <= x then None else At(fs, x)
  {
    map x | x in fs && !(dir <= x) :: fs[x]
  }

  /** The paths of `tails` placed below a directory. */
  function Below(dir: Path, tails: set<Path>): (r: set<Path>)
    ensures forall x :: x in r <==> dir <= x && x[|dir|..] in tails
  {
    assert forall t: Path :: dir <= dir + t && (dir + t)[|dir|..] == t;
    assert forall x :: dir <= x ==> dir + x[|dir|..] == x;
    set t | t in tails :: dir + t
  }

  /** The paths relative to a directory of the files below it. */
  function Tails(fs: Files, dir: Path): (r: set<Path>)
    ensures forall t :: t in r <==> dir + t in fs
  {
    assert forall t: Path :: dir <= dir + t && (dir + t)[|dir|..] == t;
    assert forall x :: dir <= x ==> dir + x[|dir|..] == x;
    set x | x in fs && dir <= x :: x[|dir|..]
  }

  /** Renaming of a whole directory; what was at the target is gone. */
  function Moved(fs: Files, a: Path, b: Path): (r: Files)
    requires Apart(a, b)
    ensures forall x :: At(r, x) == (if b <= x then At(fs, a + x[|b|..]) else if a <= x then None else At(fs, x))
  {
    Erased(Erased(fs, a), b) + map x | x in Below(b, Tails(fs, a)) :: fs[a + x[|b|..]]
  }

  predicate Apart(a: Path, b: Path) {
    !(a <= b) && !(b <= a)
  }

  /** A directory tree put at a place where nothing is. */
  function Planted(fs: Files, dir: Path, tree: Files): (r: Files)
    ensures forall x :: At(r, x) == if dir <= x then At(tree, x[|dir|..]) else At(fs, x)
  {
    Erased(fs, dir) + map x | x in Below(dir, tree.Keys) :: tree[x[|dir|..]]
  }

  lemma SameFiles(a: Files, b: Files)
    requires forall x :: At(a, x) == At(b, x)
    ensures a == b
  {
    forall x ensures x in a <==> x in b {
      assert At(a, x) == At(b, x);
    }
    forall x | x in a ensures a[x] == b[x] {
      assert At(a, x) == At(b, x);
    }
  }

  // ---------- Places ----------

  const META: string := "_meta"
  const CENTRE: Path := ["workbuddy-experts", "_meta", "_expert_center.json"]
  /** The centre file within the directory of a plugin named like the centre's own. */
  const CENTRE_TAIL: Path := ["_expert_center.json"]
  const MANIFEST_PATH: Path := ["plugin.json"]
  const MANIFEST_COPY: Path := [".codebuddy-plugin", "plugin.json"]
  const STAGED_CENTRE: Path := ["_meta", "_expert_center.json"]

  function Destination(pluginId: string): Path { ["workbuddy-experts", pluginId] }
  function Backup(pluginId: string, nonce: string): Path { ["workbuddy-experts", pluginId + ".backup-" + nonce] }
  function JournalPath(importId: string): Path { ["openbuddy-workbuddy-imports", importId + ".json"] }
  function Staging(importId: string, nonce: string): Path {
    ["openbuddy-workbuddy-imports", importId + "." + nonce + ".staging"]
  }

  lemma PlacesApart(pluginId: string, importId: string, stagingNonce: string, backupNonce: string)
    ensures var d, b, s, j := Destination(pluginId), Backup(pluginId, backupNonce),
                              Staging(importId, stagingNonce), JournalPath(importId);
      && !(d <= b) && !(b <= d) && !(b <= CENTRE) && !(s <= CENTRE) && !(CENTRE <= b) && !(CENTRE <= d)
      && !(d <= s) && !(s <= d) && !(b <= s) && !(s <= b)
      && !(d <= j) && !(b <= j) && !(s <= j) && j != CENTRE
      && (d <= CENTRE <==> pluginId == META)
  {
    var d, b, s, j := Destination(pluginId), Backup(pluginId, backupNonce),
                      Staging(importId, stagingNonce), JournalPath(importId);
    assert d[0] == b[0] == CENTRE[0] == "workbuddy-experts";
    assert s[0] == j[0] == "openbuddy-workbuddy-imports";
    assert |b[1]| > |d[1]|;
    assert b[1][|pluginId|] == '.';
    assert s[1][|s[1]| - 1] == 'g' && j[1][|j[1]| - 1] == 'n';
    assert |d[0]| != |s[0]|;
    assert d[1] != b[1] && b[1] != CENTRE[1] && s[1] != j[1];
    if pluginId == META { assert CENTRE[..2] == d; }
  }

  // ---------- Resource paths ----------

  predicate SafeTail(rest: Path) {
    rest != [] && forall k :: 0 <= k < |rest| ==> rest[k] != "" && rest[k] != ".."
  }

  /** Where a previewed resource goes below the plugin directory; `None` when it is refused. */
  function ImportedPath(path: Path): Option<Path> {
    if |path| > 5 && path[0] == "plugins" && path[1] == "marketplaces" && path[2] != ""
       && path[3] == "plugins" && path[4] != "" then
      if SafeTail(path[5..]) then Some(path[5..]) else None
    else if |path| > 3 && path[0] == "plugins" && path[1] == "plugins" && path[2] != "" then
      if SafeTail(path[3..]) then Some(path[3..]) else None
    else
      None
  }

  /** Resources of a marketplace plugin keep their place below the plugin directory. */
  lemma MarketplaceLayout(market: string, id: string, rest: Path)
    requires market != "" && id != ""
    ensures ImportedPath(["plugins", "marketplaces", market, "plugins", id] + rest)
         == if SafeTail(rest) then Some(rest) else None
  {
    var path := ["plugins", "marketplaces", market, "plugins", id] + rest;
    assert path[5..] == rest;
  }

  /**
    Previews also accept the layout plugins/<id>/…, but its resources are refused on confirmation,
    except below ids that happen to spell out the marketplace layout, where they are misplaced.
   */
  lemma DirectLayout(id: string, rest: Path)
    requires SafeTail(rest)
    ensures ImportedPath(["plugins", id] + rest).Some? <==>
      || (id == "plugins" && |rest| > 1)
      || (id == "marketplaces" && |rest| > 3 && rest[1] == "plugins")
    ensures ImportedPath(["plugins", id] + rest) != Some(rest)
  {
    var path := ["plugins", id] + rest;
    if id == "plugins" && |rest| > 1 {
      assert path[3..] == rest[1..];
    }
    if id == "marketplaces" && |rest| > 3 && rest[1] == "plugins" {
      assert path[5..] == rest[3..];
    }
  }

  // ---------- Staging ----------

  datatype Kind = ManifestFile | Resource
  /** A previewed file: where it is, and the content whose hash the preview recorded. */
  datatype FileRef = FileRef(path: Path, kind: Kind, hashed: Content)

  function TargetOf(file: FileRef): Option<Path> {
    if file.kind == ManifestFile then Some(MANIFEST_PATH) else ImportedPath(file.path)
  }

  predicate IsObject(c: Option<Content>) {
    c.Some? && c.value.JsonText? && c.value.value.Obj?
  }

  /** What is written for one previewed file; `None` when the source changed or is unusable. */
  function StagedContent(file: FileRef, source: Files): Option<Content> {
    if At(source, file.path) != Some(file.hashed) then None
    else if file.kind == Resource then Some(file.hashed)
    else if IsObject(Some(file.hashed)) then Some(JsonText(Obj(RedactFields(file.hashed.value.fields))))
    else None
  }

  /** One path stands inside the other, so that not both can be files. */
  predicate Nested(a: Path, b: Path) {
    a != b && (a <= b || b <= a)
  }

  /** No file can be written at the path: a file is where a directory must be, or the other way. */
  predicate Obstructed(fs: Files, x: Path) {
    exists y :: y in fs && Nested(y, x)
  }

  function StagedFiles(files: seq<FileRef>, source: Files): Option<Files>
    decreases |files|
  {
    if files == [] then Some(map[])
    else
      var n := |files| - 1;
      var before := StagedFiles(files[..n], source);
      var target, content := TargetOf(files[n]), StagedContent(files[n], source);
      if before.None? || target.None? || content.None? || Obstructed(before.value, target.value) then None
      else Some(before.value[target.value := content.value])
  }

  function Stamp(fields: seq<Field>): seq<Field> {
    Assigned(fields, HASH_KEY, Fingerprint(fields))
  }

  /** The complete staging directory, or `None` when staging fails without any fault. */
  function StagedTree(files: seq<FileRef>, entry: Json, source: Files): Option<Files> {
    var copied := StagedFiles(files, source);
    if copied.None? || !IsObject(At(copied.value, MANIFEST_PATH)) then None
    else if Obstructed(copied.value, MANIFEST_COPY) || Obstructed(copied.value, STAGED_CENTRE) then None
    else
      var manifest := JsonText(Obj(Stamp(copied.value[MANIFEST_PATH].value.fields)));
      Some(copied.value[MANIFEST_PATH := manifest][MANIFEST_COPY := manifest][STAGED_CENTRE := JsonText(OwnCentre(entry))])
  }

  // ---------- The expert centre ----------

  const IMPORTED_CATEGORIES: Json :=
    Arr([Obj([Field("id", Str("imported")),
              Field("name", Obj([Field("zh", Str("已导入")), Field("en", Str("Imported"))]))])])

  function OwnCentre(entry: Json): Json {
    Obj([Field("categories", IMPORTED_CATEGORIES), Field("experts", Arr([entry]))])
  }

  predicate IsExpertOf(item: Json, pluginId: string) {
    item.Obj? && Get(item.fields, "plugin") == Some(Str(pluginId))
  }

  function OtherExperts(items: seq<Json>, pluginId: string): seq<Json> {
    if items == [] then []
    else if IsExpertOf(items[0], pluginId) then OtherExperts(items[1..], pluginId)
    else [items[0]] + OtherExperts(items[1..], pluginId)
  }

  /** The properties of the centre file; a missing or unreadable file counts as an empty centre. */
  function CentreFields(text: Option<Content>): seq<Field> {
    if text.Some? && text.value.JsonText? then FieldsOf(text.value.value)
    else [Field("categories", Arr([])), Field("experts", Arr([]))]
  }

  function ExpertsOf(text: Option<Content>): seq<Json> {
    var experts := Get(CentreFields(text), "experts");
    if experts.Some? && experts.value.Arr? then experts.value.items else []
  }

  function CentreAfter(text: Option<Content>, pluginId: string, entry: Json): Content {
    var experts := OtherExperts(ExpertsOf(text), pluginId) + [entry];
    JsonText(Obj(Assigned(Assigned(CentreFields(text), "categories", IMPORTED_CATEGORIES), "experts", Arr(experts))))
  }

  /** The centre file is an object with a list of experts, which a rollback rewrites. */
  predicate ListsExperts(text: Option<Content>) {
    IsObject(text) && Get(text.value.value.fields, "experts").Some? && Get(text.value.value.fields, "experts").value.Arr?
  }

  function CentreRolledBack(text: Option<Content>, pluginId: string): Option<Content> {
    if ListsExperts(text) then
      Some(JsonText(Obj(Assigned(text.value.value.fields, "experts", Arr(OtherExperts(ExpertsOf(text), pluginId))))))
    else text
  }

  function WithFile(fs: Files, x: Path, content: Option<Content>): (r: Files)
    ensures forall y :: At(r, y) == if y == x then content else At(fs, y)
  {
    if content.Some? then fs[x := content.value] else map y | y in fs && y != x :: fs[y]
  }

  /** The centre entry of an imported plugin; without an agent the last property is left out. */
  function ExpertEntry(pluginId: string, team: bool, agentName: Option<string>): (entry: Json)
    ensures IsExpertOf(entry, pluginId)
  {
    var kind := if team then "team" else "agent";
    var fields := [
      Field("id", Str(pluginId)), Field("plugin", Str(pluginId)), Field("categoryId", Str("imported")),
      Field("displayName", Str(pluginId)), Field("displayDescription", Str("从 WorkBuddy 本地配置导入")),
      Field("profession", Str(if team then "专家团" else "专家")), Field("expertType", Str(kind))];
    assert fields[1..][0] == Field("plugin", Str(pluginId));
    var all := fields + (if agentName.Some? then [Field("agentName", Str(agentName.value))] else []);
    assert all[0] == fields[0] && all[1..][0] == fields[1];
    Obj(all)
  }

  // ---------- Confirmation and rollback ----------

  /** One confirmation: the plugin, the ids drawn for it, its staged tree and its centre entry. */
  datatype Import = Import(pluginId: string, importId: string, backupNonce: string, files: seq<Path>, tree: Files, entry: Json)

  function BackupOf(fs: Files, c: Import): Option<Path> {
    if Exists(fs, Destination(c.pluginId)) then Some(Backup(c.pluginId, c.backupNonce)) else None
  }

  function CommittedAt(fs: Files, c: Import, x: Path): Option<Content> {
    if Destination(c.pluginId) <= x then At(c.tree, x[2..])
    else if BackupOf(fs, c).Some? && BackupOf(fs, c).value <= x then At(fs, Destination(c.pluginId) + x[2..])
    else At(fs, x)
  }

  /** After the two renames: the old directory is the backup, the staged tree is in its place. */
  function Committed(fs: Files, c: Import): (r: Files)
    ensures forall x :: At(r, x) == CommittedAt(fs, c, x)
  {
    PlacesApart(c.pluginId, c.importId, "", c.backupNonce);
    var saved := if BackupOf(fs, c).Some? then Moved(fs, Destination(c.pluginId), BackupOf(fs, c).value) else fs;
    Planted(saved, Destination(c.pluginId), c.tree)
  }

  function JournalOf(fs: Files, c: Import): Journal {
    Journal(c.pluginId, true, c.files, BackupOf(fs, c))
  }

  /** The centre and the journal written; a centre that could not be read counts as none. */
  function Published(fs: Files, c: Import, seen: bool): Files {
    var r := Committed(fs, c);
    var listed := WithFile(r, CENTRE, Some(CentreAfter(if seen then At(r, CENTRE) else None, c.pluginId, c.entry)));
    WithFile(listed, JournalPath(c.importId), Some(Record(JournalOf(fs, c))))
  }

  function Confirmed(fs: Files, c: Import): Files {
    Published(fs, c, true)
  }

  /** What is left when a committed import fails later and its recovery succeeds, journal aside. */
  function Recovered(fs: Files, c: Import): Files {
    WithFile(fs, CENTRE, At(Committed(fs, c), CENTRE))
  }

  function JournalAt(fs: Files, importId: string): Option<Journal> {
    var text := At(fs, JournalPath(importId));
    if text.Some? && text.value.Record? then Some(text.value.journal) else None
  }

  function RolledBack(fs: Files, importId: string): Files {
    var journal := JournalAt(fs, importId);
    if journal.None? then fs
    else
      var j := journal.value;
      var bare := Erased(fs, Destination(j.pluginId));
      var restored := if j.backup.Some? && Apart(j.backup.value, Destination(j.pluginId))
                      then Moved(bare, j.backup.value, Destination(j.pluginId)) else bare;
      var listed := WithFile(restored, CENTRE, CentreRolledBack(At(restored, CENTRE), j.pluginId));
      WithFile(listed, JournalPath(importId), Some(Record(j.(installed := false))))
  }
}
