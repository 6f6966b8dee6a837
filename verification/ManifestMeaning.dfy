/**
  What the manifest functions of electron/main/workbuddy-import.ts mean place by place: what
  redaction reaches and leaves, which keys it takes for secrets, and how versions are read.
 */
module ManifestMeaning {
  import opened Common
  import opened Manifest

  // ---------- Redaction, place by place ----------

  /** One step into a value: to a property or to an element. */
  datatype Seg = Key(key: string) | Nth(index: nat)

  function Reach(v: Json, path: seq<Seg>): Option<Json>
    decreases |path|
  {
    if path == [] then Some(v)
    else
      match path[0]
      case Key(k) => if v.Obj? && Get(v.fields, k).Some? then Reach(Get(v.fields, k).value, path[1..]) else None
      case Nth(i) => if v.Arr? && i < |v.items| then Reach(v.items[i], path[1..]) else None
  }

  predicate ThroughSecret(path: seq<Seg>) {
    exists i :: 0 <= i < |path| && path[i].Key? && Sensitive(path[i].key)
  }

  predicate Scalar(v: Json) {
    !v.Arr? && !v.Obj?
  }

  /**
    What stands at a place outside all secrets stands there still, redacted itself; a scalar is
    unchanged and an array keeps its length.  Nothing can be reached through a secret.
   */
  lemma {:induction false} RedactReaches(v: Json, path: seq<Seg>)
    ensures ThroughSecret(path) ==> Reach(Redact(v), path).None?
    ensures !ThroughSecret(path) ==>
      Reach(Redact(v), path) == if Reach(v, path).None? then None else Some(Redact(Reach(v, path).value))
    ensures Scalar(v) ==> Redact(v) == v
    ensures v.Arr? ==> Redact(v).Arr? && |Redact(v).items| == |v.items|
    decreases |path|
  {
    if path != [] {
      var rest := path[1..];
      assert ThroughSecret(path) <==> (path[0].Key? && Sensitive(path[0].key)) || ThroughSecret(rest) by {
        if ThroughSecret(path) {
          var i :| 0 <= i < |path| && path[i].Key? && Sensitive(path[i].key);
          assert i > 0 ==> rest[i - 1] == path[i];
        }
        if ThroughSecret(rest) {
          var i :| 0 <= i < |rest| && rest[i].Key? && Sensitive(rest[i].key);
          assert path[i + 1] == rest[i];
        }
      }
      match path[0]
      case Key(k) =>
        if v.Obj? {
          GetRedacted(v.fields, k);
          if Get(v.fields, k).Some? {
            RedactReaches(Get(v.fields, k).value, rest);
          }
        }
      case Nth(i) =>
        if v.Arr? && i < |v.items| {
          RedactItemsAt(v.items, i);
          RedactReaches(v.items[i], rest);
        }
    }
  }

  // ---------- Secrets ----------

  /** A compound, written together, with an underscore or with a hyphen. */
  predicate Compound(w: string, a: string, b: string) {
    w == a + b || w == a + "_" + b || w == a + "-" + b
  }

  /** The words that mark a key. */
  predicate SecretWord(w: string) {
    || w == "token" || w == "secret" || w == "password" || w == "credential" || w == "oauth"
    || Compound(w, "private", "key") || Compound(w, "master", "key") || Compound(w, "access", "key")
    || Compound(w, "refresh", "token")
  }

  /** The three listed forms of a compound. */
  lemma {:induction false} CompoundForms(w: string, a: string, b: string, k: nat)
    requires k + 2 < |SENSITIVE_WORDS|
    requires SENSITIVE_WORDS[k] == a + b && SENSITIVE_WORDS[k + 1] == a + "_" + b && SENSITIVE_WORDS[k + 2] == a + "-" + b
    ensures Compound(w, a, b) <==> w == SENSITIVE_WORDS[k] || w == SENSITIVE_WORDS[k + 1] || w == SENSITIVE_WORDS[k + 2]
  {
  }

  lemma {:induction false} SecretWordsListed(w: string)
    ensures SecretWord(w) <==> w in SENSITIVE_WORDS
  {
    CompoundForms(w, "private", "key", 4);
    CompoundForms(w, "master", "key", 7);
    CompoundForms(w, "access", "key", 11);
    CompoundForms(w, "refresh", "token", 14);
    AtOneOfTheIndices(w);
  }

  lemma {:induction false} AtOneOfTheIndices(w: string)
    ensures w in SENSITIVE_WORDS <==> exists i :: 0 <= i < 17 && SENSITIVE_WORDS[i] == w
  {
    assert |SENSITIVE_WORDS| == 17;
  }

  function Lowered(s: string): string {
    seq(|s|, i requires 0 <= i < |s| => Lower(s[i]))
  }

  lemma {:induction false} OccursIff(key: string, w: string, i: nat)
    ensures OccursAt(key, w, i) <==> i + |w| <= |key| && Lowered(key)[i..i + |w|] == w
  {
    if i + |w| <= |key| {
      var part := Lowered(key)[i..i + |w|];
      assert forall k :: 0 <= k < |w| ==> part[k] == Lower(key[i + k]);
    }
  }

  /** A key is sensitive exactly when it reads, in lower case, as something, a secret word, something. */
  lemma {:induction false} SensitiveIff(key: string)
    ensures Sensitive(key) <==> exists a, w, b :: SecretWord(w) && Lowered(key) == a + w + b
  {
    if Sensitive(key) {
      var k, i :| 0 <= k < |SENSITIVE_WORDS| && 0 <= i <= |key| && OccursAt(key, SENSITIVE_WORDS[k], i);
      SecretInside(key, SENSITIVE_WORDS[k], i);
    }
    if a, w, b :| SecretWord(w) && Lowered(key) == a + w + b {
      InsideIsSensitive(key, a, w, b);
    }
  }

  lemma {:induction false} SecretInside(key: string, w: string, i: nat)
    requires w in SENSITIVE_WORDS && OccursAt(key, w, i)
    ensures exists a, v, b :: SecretWord(v) && Lowered(key) == a + v + b
  {
    SecretWordsListed(w);
    OccursIff(key, w, i);
    var low := Lowered(key);
    assert low == low[..i] + w + low[i + |w|..];
  }

  lemma {:induction false} InsideIsSensitive(key: string, a: string, w: string, b: string)
    requires SecretWord(w) && Lowered(key) == a + w + b
    ensures Sensitive(key)
  {
    SecretWordsListed(w);
    var k :| 0 <= k < |SENSITIVE_WORDS| && SENSITIVE_WORDS[k] == w;
    assert (a + w + b)[|a|..|a| + |w|] == w;
    OccursIff(key, w, |a|);
    assert OccursAt(key, SENSITIVE_WORDS[k], |a|);
  }

  // ---------- Versions ----------

  /** Texts with points between them. */
  function Dotted(parts: seq<string>): string
    requires parts != []
  {
    if |parts| == 1 then parts[0] else parts[0] + "." + Dotted(parts[1..])
  }

  predicate Pointless(s: string) {
    '.' !in s
  }

  /** Splitting finds the texts between the points. */
  lemma {:induction false} SplitDotted(s: string)
    ensures Dotted(Split(s)) == s
    ensures forall i :: 0 <= i < |Split(s)| ==> Pointless(Split(s)[i])
  {
    if s != "" {
      var rest := Split(s[1..]);
      SplitDotted(s[1..]);
      if s[0] == '.' {
        assert Split(s)[1..] == rest;
        assert s == "." + s[1..];
      } else {
        assert Split(s)[1..] == rest[1..];
        assert s == [s[0]] + s[1..];
      }
    }
  }

  function Digit(n: nat): char
    requires n < 10
  {
    '0' + n as char
  }

  function Decimal(n: nat): string {
    if n < 10 then [Digit(n)] else Decimal(n / 10) + [Digit(n % 10)]
  }

  predicate IsDigit(c: char) {
    '0' <= c <= '9'
  }

  predicate NoDigitFirst(s: string) {
    s == "" || !IsDigit(s[0])
  }

  lemma {:induction false} DigitsThrough(s: string, t: string, acc: nat)
    requires forall i :: 0 <= i < |s| ==> IsDigit(s[i])
    ensures Digits(s + t, acc) == Digits(t, Digits(s, acc))
    decreases |s|
  {
    if s == "" {
      assert s + t == t;
    } else {
      assert (s + t)[1..] == s[1..] + t;
      DigitsThrough(s[1..], t, 10 * acc + (s[0] - '0') as nat);
    }
  }

  lemma {:induction false} DecimalDigits(n: nat)
    ensures Decimal(n) != "" && forall i :: 0 <= i < |Decimal(n)| ==> IsDigit(Decimal(n)[i])
    ensures Digits(Decimal(n), 0) == n
  {
    if n < 10 {
      assert [Digit(n)][1..] == "";
    } else {
      DecimalDigits(n / 10);
      DigitsThrough(Decimal(n / 10), [Digit(n % 10)], 0);
      assert [Digit(n % 10)][1..] == "";
    }
  }

  /** A part that starts with a number counts as that number, whatever follows; with none, as zero. */
  lemma {:induction false} PartsAreNumbers(n: nat, rest: string)
    requires NoDigitFirst(rest)
    ensures ParsePart(Decimal(n) + rest) == n
    ensures ParsePart("-" + Decimal(n) + rest) + n == 0
    ensures rest != "" && rest[0] !in " \t\n\r+-" ==> ParsePart(rest) == 0
    ensures ParsePart("") == 0
  {
    DecimalDigits(n);
    DigitsThrough(Decimal(n), rest, 0);
    var s := Decimal(n) + rest;
    assert IsDigit(s[0]);
    var m := "-" + Decimal(n) + rest;
    assert m[0] == '-' && m[1..] == s;
  }

  /** Parts without points are what their dotted text splits into. */
  lemma {:induction false} DottedSplit(parts: seq<string>)
    requires parts != [] && forall i :: 0 <= i < |parts| ==> Pointless(parts[i])
    ensures Split(Dotted(parts)) == parts
  {
    if |parts| == 1 {
      SplitPointless(parts[0], "");
      assert parts[0] + "" == parts[0];
    } else {
      DottedSplit(parts[1..]);
      SplitPointless(parts[0], "." + Dotted(parts[1..]));
      var tail := "." + Dotted(parts[1..]);
      assert tail[0] == '.' && tail[1..] == Dotted(parts[1..]);
      assert Split(tail)[0] == "" && Split(tail)[1..] == parts[1..];
      assert parts[0] + "" == parts[0];
      assert parts[0] + "." + Dotted(parts[1..]) == parts[0] + ("." + Dotted(parts[1..]));
    }
  }

  lemma {:induction false} SplitPointless(s: string, t: string)
    requires Pointless(s)
    ensures Split(s + t) == [s + Split(t)[0]] + Split(t)[1..]
  {
    if s == "" {
      assert s + t == t && s + Split(t)[0] == Split(t)[0];
      assert Split(t) == [Split(t)[0]] + Split(t)[1..];
    } else {
      assert (s + t)[1..] == s[1..] + t && (s + t)[0] == s[0] && s[0] in s;
      SplitPointless(s[1..], t);
      var rest := Split(s[1..] + t);
      assert rest[0] == s[1..] + Split(t)[0] && rest[1..] == Split(t)[1..];
      assert Split(s + t) == [[s[0]] + rest[0]] + rest[1..];
      assert [s[0]] + (s[1..] + Split(t)[0]) == s + Split(t)[0];
    }
  }

  /** The rank of a dotted version is the numbers of its parts. */
  lemma {:induction false} RankOfDotted(numbers: seq<nat>, i: nat)
    requires i < |numbers|
    ensures var version := Dotted(seq(|numbers|, k requires 0 <= k < |numbers| => Decimal(numbers[k])));
      |Rank(version)| == |numbers| && Rank(version)[i] == numbers[i]
  {
    var parts := seq(|numbers|, k requires 0 <= k < |numbers| => Decimal(numbers[k]));
    forall k | 0 <= k < |parts| ensures Pointless(parts[k]) {
      DecimalDigits(numbers[k]);
    }
    DottedSplit(parts);
    PartsAreNumbers(numbers[i], "");
    assert Decimal(numbers[i]) + "" == Decimal(numbers[i]);
  }

  // ---------- Unversioned manifests ----------

  /** Over an import without a version another manifest conflicts, and without one of its own it counts as 0.0.0. */
  lemma {:induction false} Unversioned(source: seq<Field>, installed: seq<Field>, version: string)
    requires Get(installed, HASH_KEY) != Some(Fingerprint(source))
    ensures Get(installed, "version").None? ==> DispositionOf(source, Some(Obj(installed)), false) == Conflict
    ensures Get(source, "version").None? && Get(installed, "version") == Some(Str(version)) && version != "" ==>
      var zero, other := Rank("0.0.0"), Rank(version);
      DispositionOf(source, Some(Obj(installed)), false)
        == if Newer(zero, other) then Upgrade else if Newer(other, zero) then Downgrade else Conflict
  {
    CompareMeaning(Rank("0.0.0"), Rank(version));
  }

  // ---------- Dispositions ----------

  /** Errors block, and where nothing is installed a preview is new. */
  lemma {:induction false} BlockedOrNew(source: seq<Field>, existing: Option<Json>)
    ensures DispositionOf(source, existing, true) == Blocked
    ensures DispositionOf(source, None, false) == New
    ensures existing.Some? && existing.value.Obj? ==> DispositionOf(source, existing, false) !in {Blocked, New}
  {
  }
}
