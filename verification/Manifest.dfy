/**
  Plugin manifests in electron/main/workbuddy-import.ts: redaction, the fingerprint stored with
  an import, version comparison, and the disposition a preview reports.

  JSON text is represented by the value it parses to, and a digest by the value whose text was
  digested, so hashing is injective and printing followed by parsing is the identity.
 */
module Manifest {
  import opened Common

  /** `Digest(v)` is the string holding the SHA-256 of the text of `v`. */
  datatype Json =
    | Null
    | Bool(b: bool)
    | Num(n: int)
    | Str(s: string)
    | Digest(of: Json)
    | Arr(items: seq<Json>)
    | Obj(fields: seq<Field>)
  datatype Field = Field(key: string, value: Json)

  const HASH_KEY: string := "openbuddyManifestHash"

  // ---------- Properties of an object ----------

  function Get(fields: seq<Field>, key: string): Option<Json> {
    if fields == [] then None
    else if fields[0].key == key then Some(fields[0].value)
    else Get(fields[1..], key)
  }

  function Deleted(fields: seq<Field>, key: string): seq<Field> {
    if fields == [] then []
    else if fields[0].key == key then Deleted(fields[1..], key)
    else [fields[0]] + Deleted(fields[1..], key)
  }

  /** Assignment to a property: in place when it exists, at the end otherwise. */
  function Assigned(fields: seq<Field>, key: string, value: Json): seq<Field> {
    if fields == [] then [Field(key, value)]
    else if fields[0].key == key then [Field(key, value)] + fields[1..]
    else [fields[0]] + Assigned(fields[1..], key, value)
  }

  predicate DistinctKeys(fields: seq<Field>) {
    fields == [] || (Get(fields[1..], fields[0].key).None? && DistinctKeys(fields[1..]))
  }

  function FieldsOf(v: Json): seq<Field> {
    if v.Obj? then v.fields else []
  }

  // ---------- Redaction ----------

  const SENSITIVE_WORDS: seq<string> := [
    "token", "secret", "password", "credential",
    "privatekey", "private_key", "private-key", "masterkey", "master_key", "master-key", "oauth",
    "accesskey", "access_key", "access-key", "refreshtoken", "refresh_token", "refresh-token"]

  function Lower(c: char): char {
    if 'A' <= c <= 'Z' then c - 'A' + 'a' else c
  }

  /** The word occurs in the key, whatever the letter case of the key. */
  predicate OccursAt(key: string, word: string, i: nat) {
    i + |word| <= |key| && forall k :: 0 <= k < |word| ==> Lower(key[i + k]) == word[k]
  }

  predicate Sensitive(key: string) {
    exists w, i :: 0 <= w < |SENSITIVE_WORDS| && 0 <= i <= |key| && OccursAt(key, SENSITIVE_WORDS[w], i)
  }

  function Redact(v: Json): Json
    decreases v
  {
    match v
    case Arr(items) => Arr(RedactItems(items))
    case Obj(fields) => Obj(RedactFields(fields))
    case _ => v
  }

  function RedactItems(items: seq<Json>): (r: seq<Json>)
    ensures |r| == |items|
    decreases items
  {
    if items == [] then [] else [Redact(items[0])] + RedactItems(items[1..])
  }

  function RedactFields(fields: seq<Field>): seq<Field>
    decreases fields
  {
    if fields == [] then []
    else if Sensitive(fields[0].key) then RedactFields(fields[1..])
    else
      assert fields[0].value < fields[0];
      [Field(fields[0].key, Redact(fields[0].value))] + RedactFields(fields[1..])
  }

  /** No object anywhere inside the value has a sensitive key. */
  predicate Clean(v: Json)
    decreases v
  {
    match v
    case Arr(items) => forall i :: 0 <= i < |items| ==> Clean(items[i])
    case Obj(fields) => forall i :: 0 <= i < |fields| ==> !Sensitive(fields[i].key) && Clean(fields[i].value)
    case _ => true
  }

  /** Redaction removes every sensitive key, at every depth. */
  lemma {:induction false} RedactCleans(v: Json)
    ensures Clean(Redact(v))
    decreases v
  {
    match v
    case Arr(items) =>
      forall i | 0 <= i < |items| ensures Clean(RedactItems(items)[i]) {
        RedactItemsAt(items, i);
        RedactCleans(items[i]);
      }
    case Obj(fields) => RedactFieldsCleans(fields);
    case _ =>
  }

  lemma {:induction false} RedactItemsAt(items: seq<Json>, i: nat)
    requires i < |items|
    ensures RedactItems(items)[i] == Redact(items[i])
  {
    if i > 0 {
      RedactItemsAt(items[1..], i - 1);
    }
  }

  lemma {:induction false} RedactFieldsCleans(fields: seq<Field>)
    ensures Clean(Obj(RedactFields(fields)))
    decreases fields
  {
    if fields != [] {
      RedactFieldsCleans(fields[1..]);
      var rest := RedactFields(fields[1..]);
      assert forall i :: 0 <= i < |rest| ==> !Sensitive(rest[i].key) && Clean(rest[i].value);
      if !Sensitive(fields[0].key) {
        assert fields[0].value < fields[0];
        RedactCleans(fields[0].value);
      }
    }
  }

  /** Redaction leaves a value alone exactly when it holds nothing sensitive. */
  lemma {:induction false} RedactFixpointIff(v: Json)
    ensures Redact(v) == v <==> Clean(v)
    decreases v
  {
    if Clean(v) {
      match v
      case Arr(items) =>
        forall i | 0 <= i < |items| ensures RedactItems(items)[i] == items[i] {
          RedactItemsAt(items, i);
          RedactFixpointIff(items[i]);
        }
        assert RedactItems(items) == items;
      case Obj(fields) => RedactFieldsFixpoint(fields);
      case _ =>
    } else {
      RedactCleans(v);
    }
  }

  lemma {:induction false} RedactFieldsFixpoint(fields: seq<Field>)
    requires forall i :: 0 <= i < |fields| ==> !Sensitive(fields[i].key) && Clean(fields[i].value)
    ensures RedactFields(fields) == fields
    decreases fields
  {
    if fields != [] {
      assert fields[0].value < fields[0];
      RedactFixpointIff(fields[0].value);
      RedactFieldsFixpoint(fields[1..]);
    }
  }

  lemma {:induction false} RedactIdempotent(v: Json)
    ensures Redact(Redact(v)) == Redact(v)
  {
    RedactCleans(v);
    RedactFixpointIff(Redact(v));
  }

  // ---------- The fingerprint ----------

  function Fingerprint(fields: seq<Field>): Json {
    Digest(Redact(Obj(Deleted(fields, HASH_KEY))))
  }

  /** The manifest an import writes: the redacted source manifest with its own fingerprint. */
  function Stamped(source: seq<Field>): seq<Field> {
    var redacted := RedactFields(source);
    Assigned(redacted, HASH_KEY, Fingerprint(redacted))
  }

  ghost predicate HasLetter(word: string, letters: set<char>) {
    exists k :: 0 <= k < |word| && word[k] in letters
  }

  lemma {:induction false} LacksLetters(key: string, word: string, letters: set<char>, i: nat)
    requires HasLetter(word, letters)
    requires forall j :: 0 <= j < |key| ==> Lower(key[j]) !in letters
    ensures !OccursAt(key, word, i)
  {
    var k :| 0 <= k < |word| && word[k] in letters;
    if i + |word| <= |key| {
      assert Lower(key[i + k]) !in letters;
    }
  }

  lemma {:induction false} VersionNotSensitive()
    ensures !Sensitive("version")
  {
    var letters := {'c', 'k', 'w', 'p', 'm', 'f', 'a'};
    assert forall j :: 0 <= j < 7 ==> Lower("version"[j]) !in letters;
    forall w: nat, i: nat | w < |SENSITIVE_WORDS|
      ensures !OccursAt("version", SENSITIVE_WORDS[w], i)
    {
      var word := SENSITIVE_WORDS[w];
      assert w == 0 ==> word[2] == 'k';
      assert w == 1 ==> word[2] == 'c';
      assert w == 2 ==> word[4] == 'w';
      assert w == 3 ==> word[0] == 'c';
      assert 4 <= w <= 6 ==> word[0] == 'p';
      assert 7 <= w <= 9 ==> word[0] == 'm';
      assert 10 <= w <= 13 ==> word[if w == 10 then 1 else 0] == 'a';
      assert 14 <= w <= 16 ==> word[2] == 'f';
      LacksLetters("version", word, letters, i);
    }
  }

  lemma {:induction false} DeletedRedacted(fields: seq<Field>, key: string)
    ensures RedactFields(Deleted(fields, key)) == Deleted(RedactFields(fields), key)
  {
    if fields != [] {
      DeletedRedacted(fields[1..], key);
    }
  }

  lemma {:induction false} DeletedAssigned(fields: seq<Field>, key: string, value: Json)
    requires DistinctKeys(fields)
    ensures Deleted(Assigned(fields, key, value), key) == Deleted(fields, key)
    ensures Get(Assigned(fields, key, value), key) == Some(value)
  {
    if fields != [] && fields[0].key != key {
      DeletedAssigned(fields[1..], key, value);
    }
  }

  lemma {:induction false} RedactFieldsKeys(fields: seq<Field>)
    requires DistinctKeys(fields)
    ensures DistinctKeys(RedactFields(fields))
  {
    if fields != [] {
      GetRedacted(fields[1..], fields[0].key);
      RedactFieldsKeys(fields[1..]);
    }
  }

  /** The stored manifest carries the source's fingerprint and has that fingerprint itself. */
  lemma {:induction false} FingerprintStable(source: seq<Field>)
    requires DistinctKeys(source)
    ensures Get(Stamped(source), HASH_KEY) == Some(Fingerprint(source))
    ensures Fingerprint(Stamped(source)) == Fingerprint(source)
  {
    var redacted := RedactFields(source);
    RedactFieldsKeys(source);
    DeletedAssigned(redacted, HASH_KEY, Fingerprint(redacted));
    DeletedRedacted(source, HASH_KEY);
    RedactIdempotent(Obj(Deleted(source, HASH_KEY)));
  }

  /** Apart from the fingerprint the stored manifest has the source's properties, redacted. */
  lemma {:induction false} StampedKeeps(source: seq<Field>, key: string)
    requires key != HASH_KEY
    ensures Get(Stamped(source), key)
         == if Sensitive(key) || Get(source, key).None? then None else Some(Redact(Get(source, key).value))
  {
    GetAssigned(RedactFields(source), HASH_KEY, Fingerprint(RedactFields(source)), key);
    GetRedacted(source, key);
  }

  lemma {:induction false} GetAssigned(fields: seq<Field>, key: string, value: Json, other: string)
    requires other != key
    ensures Get(Assigned(fields, key, value), other) == Get(fields, other)
  {
    if fields != [] && fields[0].key != key {
      GetAssigned(fields[1..], key, value, other);
    }
  }

  lemma {:induction false} GetRedacted(fields: seq<Field>, key: string)
    ensures Get(RedactFields(fields), key)
         == if Sensitive(key) || Get(fields, key).None? then None else Some(Redact(Get(fields, key).value))
  {
    if fields != [] {
      GetRedacted(fields[1..], key);
    }
  }

  // ---------- Versions ----------

  function Split(s: string): (parts: seq<string>)
    ensures |parts| > 0
  {
    if s == "" then [""]
    else if s[0] == '.' then [""] + Split(s[1..])
    else var rest := Split(s[1..]); [[s[0]] + rest[0]] + rest[1..]
  }

  /** The digits at the start of the text, as a number. */
  function Digits(s: string, acc: nat): nat {
    if s == "" || !('0' <= s[0] <= '9') then acc else Digits(s[1..], 10 * acc + (s[0] - '0') as nat)
  }

  /** Integer parsing in base ten; text without a leading number counts as zero. */
  function ParsePart(s: string): int {
    if s == "" then 0
    else if s[0] in " \t\n\r" then ParsePart(s[1..])
    else if s[0] == '-' then 0 - Digits(s[1..], 0)
    else if s[0] == '+' then Digits(s[1..], 0)
    else Digits(s, 0)
  }

  function Rank(version: string): (rank: seq<int>) {
    var parts := Split(version);
    seq(|parts|, i requires 0 <= i < |parts| => ParsePart(parts[i]))
  }

  /** A component of a rank; missing components are zero. */
  function Component(rank: seq<int>, i: nat): int {
    if i < |rank| then rank[i] else 0
  }

  /** The ranks first differ at component `i`. */
  ghost predicate DifferAt(a: seq<int>, b: seq<int>, i: nat) {
    Component(a, i) != Component(b, i) && forall k: nat :: k < i ==> Component(a, k) == Component(b, k)
  }

  ghost predicate SameRank(a: seq<int>, b: seq<int>) {
    forall k: nat :: Component(a, k) == Component(b, k)
  }

  ghost predicate Newer(a: seq<int>, b: seq<int>) {
    exists i: nat :: DifferAt(a, b, i) && Component(a, i) > Component(b, i)
  }

  function CompareFrom(a: seq<int>, b: seq<int>, i: nat): int
    decreases |a| + |b| - i
  {
    if i >= |a| && i >= |b| then 0
    else if Component(a, i) != Component(b, i) then Component(a, i) - Component(b, i)
    else CompareFrom(a, b, i + 1)
  }

  method CompareVersion(left: string, right: string) returns (d: int)
    ensures d == CompareFrom(Rank(left), Rank(right), 0)
    ensures d > 0 <==> Newer(Rank(left), Rank(right))
    ensures d < 0 <==> Newer(Rank(right), Rank(left))
    ensures d == 0 <==> SameRank(Rank(left), Rank(right))
  {
    var a, b := Rank(left), Rank(right);
    CompareMeaning(a, b);
    var i := 0;
    while i < |a| || i < |b|
      invariant CompareFrom(a, b, 0) == CompareFrom(a, b, i)
      decreases |a| + |b| - i
    {
      if Component(a, i) != Component(b, i) {
        return Component(a, i) - Component(b, i);
      }
      i := i + 1;
    }
    return 0;
  }

  lemma {:induction false} CompareFromMeaning(a: seq<int>, b: seq<int>, i: nat)
    requires forall k: nat :: k < i ==> Component(a, k) == Component(b, k)
    ensures CompareFrom(a, b, i) > 0 <==> Newer(a, b)
    ensures CompareFrom(a, b, i) < 0 <==> Newer(b, a)
    ensures CompareFrom(a, b, i) == 0 <==> SameRank(a, b)
    decreases |a| + |b| - i
  {
    if i >= |a| && i >= |b| {
      assert SameRank(a, b);
    } else if Component(a, i) != Component(b, i) {
      assert DifferAt(a, b, i) && DifferAt(b, a, i);
    } else {
      CompareFromMeaning(a, b, i + 1);
    }
  }

  /** Versions are compared by the first component in which they differ. */
  lemma {:induction false} CompareMeaning(a: seq<int>, b: seq<int>)
    ensures CompareFrom(a, b, 0) > 0 <==> Newer(a, b)
    ensures CompareFrom(a, b, 0) < 0 <==> Newer(b, a)
    ensures CompareFrom(a, b, 0) == 0 <==> SameRank(a, b)
  {
    CompareFromMeaning(a, b, 0);
  }

  lemma {:induction false} NewerTransitive(a: seq<int>, b: seq<int>, c: seq<int>)
    requires Newer(a, b) && Newer(b, c)
    ensures Newer(a, c)
  {
    var i: nat :| DifferAt(a, b, i) && Component(a, i) > Component(b, i);
    var j: nat :| DifferAt(b, c, j) && Component(b, j) > Component(c, j);
    assert DifferAt(a, c, if i <= j then i else j);
  }

  // ---------- The disposition of a preview ----------

  datatype Disposition = New | Same | Upgrade | Downgrade | Conflict | Blocked

  predicate IsString(v: Option<Json>) {
    v.Some? && (v.value.Str? || v.value.Digest?)
  }

  predicate Falsy(v: Json) {
    v == Null || v == Bool(false) || v == Num(0) || v == Str("")
  }

  function VersionText(v: Json): string {
    if v.Str? then v.s else ""
  }

  /** What a preview of `source` reports, given the manifest installed so far. */
  function DispositionOf(source: seq<Field>, existing: Option<Json>, hasErrors: bool): Disposition {
    var version := Get(source, "version");
    var rank := Rank(if IsString(version) then VersionText(version.value) else "0.0.0");
    if hasErrors then Blocked
    else if existing.None? || Falsy(existing.value) then New
    else
      var fields := FieldsOf(existing.value);
      var hash, oldVersion := Get(fields, HASH_KEY), Get(fields, "version");
      if IsString(hash) && hash.value == Fingerprint(source) then Same
      else if !IsString(oldVersion) || VersionText(oldVersion.value) == "" then Conflict
      else
        var d := CompareFrom(rank, Rank(VersionText(oldVersion.value)), 0);
        if d > 0 then Upgrade else if d < 0 then Downgrade else Conflict
  }

  /** Two manifests that an import cannot tell apart: equal once redacted, hash field aside. */
  predicate SameImport(a: seq<Field>, b: seq<Field>) {
    Redact(Obj(Deleted(a, HASH_KEY))) == Redact(Obj(Deleted(b, HASH_KEY)))
  }

  /** Over an installed import, a preview says `same` exactly for a manifest that redacts to it. */
  lemma {:induction false} SameIffSameImport(installed: seq<Field>, source: seq<Field>)
    requires DistinctKeys(installed)
    ensures DispositionOf(source, Some(Obj(Stamped(installed))), false) == Same <==> SameImport(source, installed)
    ensures DispositionOf(installed, Some(Obj(Stamped(installed))), false) == Same
  {
    FingerprintStable(installed);
  }

  /** Between different imports with version texts, upgrade one way is downgrade the other. */
  lemma {:induction false} UpgradeIffDowngradeBack(a: seq<Field>, b: seq<Field>, va: string, vb: string)
    requires DistinctKeys(a) && DistinctKeys(b) && !SameImport(a, b)
    requires Get(a, "version") == Some(Str(va)) && Get(b, "version") == Some(Str(vb)) && va != "" && vb != ""
    ensures DispositionOf(b, Some(Obj(Stamped(a))), false) == Upgrade
        <==> DispositionOf(a, Some(Obj(Stamped(b))), false) == Downgrade
    ensures DispositionOf(b, Some(Obj(Stamped(a))), false) == Upgrade <==> Newer(Rank(vb), Rank(va))
    ensures DispositionOf(b, Some(Obj(Stamped(a))), false) == Conflict <==> SameRank(Rank(vb), Rank(va))
  {
    VersionNotSensitive();
    FingerprintStable(a);
    FingerprintStable(b);
    StampedKeeps(a, "version");
    StampedKeeps(b, "version");
    CompareMeaning(Rank(vb), Rank(va));
    CompareMeaning(Rank(va), Rank(vb));
  }
}
