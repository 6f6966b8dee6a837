/**
  Merging full-text and semantic memory hits: electron/main/agent/memory-bridge.ts.

  The hits are collected in an insertion-ordered map by id, sorted by descending score and cut
  off.  The laws hold for all inputs, also when a list repeats an id.
 */
module MemoryMerge {
  import opened Common

  const DEFAULT_LIMIT: int := 20

  datatype Hit = Hit(id: string, title: string, body: string, score: real)
  datatype Source = Fts | Semantic | Both
  datatype Tagged = Tagged(hit: Hit, source: Source)

  // ---------- The insertion-ordered map ----------

  function Find(m: seq<Tagged>, id: string): (i: nat)
    ensures i <= |m|
    ensures i < |m| ==> m[i].hit.id == id
    ensures forall j :: 0 <= j < i ==> m[j].hit.id != id
  {
    if m == [] || m[0].hit.id == id then 0 else 1 + Find(m[1..], id)
  }

  function Entry(m: seq<Tagged>, id: string): Option<Tagged> {
    var i := Find(m, id);
    if i < |m| then Some(m[i]) else None
  }

  /** A known id keeps its place, a new one goes to the end. */
  function Put(m: seq<Tagged>, t: Tagged): seq<Tagged> {
    var i := Find(m, t.hit.id);
    if i < |m| then m[i := t] else m + [t]
  }

  ghost predicate DistinctIds(m: seq<Tagged>) {
    forall i, j :: 0 <= i < j < |m| ==> m[i].hit.id != m[j].hit.id
  }

  function MergedBody(a: string, b: string): string {
    if a != "" && b != "" then a + "\n---\n" + b else if a != "" then a else b
  }

  function Max(a: real, b: real): real {
    if a >= b then a else b
  }

  /** What a semantic hit makes of the entry its id has so far. */
  function WithSemantic(entry: Option<Tagged>, h: Hit): Tagged {
    match entry
    case None => Tagged(h, Semantic)
    case Some(t) =>
      Tagged(t.hit.(body := MergedBody(t.hit.body, h.body), score := Max(t.hit.score, h.score)), Both)
  }

  function FtsEntries(fts: seq<Hit>): seq<Tagged> {
    if fts == [] then [] else Put(FtsEntries(fts[..|fts| - 1]), Tagged(fts[|fts| - 1], Fts))
  }

  function AllEntries(fts: seq<Hit>, semantic: seq<Hit>): seq<Tagged> {
    if semantic == [] then FtsEntries(fts)
    else
      var h := semantic[|semantic| - 1];
      var m := AllEntries(fts, semantic[..|semantic| - 1]);
      Put(m, WithSemantic(Entry(m, h.id), h))
  }

  // ---------- Sorting ----------

  /** The element goes behind all that score at least as much. */
  function Inserted(s: seq<Tagged>, t: Tagged): seq<Tagged> {
    if s == [] then [t]
    else if s[|s| - 1].hit.score >= t.hit.score then s + [t]
    else Inserted(s[..|s| - 1], t) + [s[|s| - 1]]
  }

  /** The stable sort by descending score. */
  function Sorted(m: seq<Tagged>): seq<Tagged> {
    if m == [] then [] else Inserted(Sorted(m[..|m| - 1]), m[|m| - 1])
  }

  /** The first `limit` elements; a negative limit cuts that many off the end. */
  function FirstOf<T>(s: seq<T>, limit: int): seq<T> {
    if limit >= |s| then s
    else if limit >= 0 then s[..limit]
    else if |s| + limit > 0 then s[..|s| + limit]
    else []
  }

  function MergedHits(fts: seq<Hit>, semantic: seq<Hit>, limit: int): seq<Tagged> {
    FirstOf(Sorted(AllEntries(fts, semantic)), limit)
  }

  // ---------- One entry per id ----------

  predicate Mentions(hits: seq<Hit>, id: string) {
    exists i :: 0 <= i < |hits| && hits[i].id == id
  }

  function CountOf(hits: seq<Hit>, id: string): nat {
    if hits == [] then 0 else CountOf(hits[..|hits| - 1], id) + (if hits[|hits| - 1].id == id then 1 else 0)
  }

  lemma {:induction false} PutMeaning(m: seq<Tagged>, t: Tagged, id: string)
    requires DistinctIds(m)
    ensures DistinctIds(Put(m, t))
    ensures Entry(Put(m, t), id) == if id == t.hit.id then Some(t) else Entry(m, id)
  {
    var r, i := Put(m, t), Find(m, t.hit.id);
    assert r[i] == t;
    EntryAt(r, i);
    if id != t.hit.id {
      var k := Find(m, id);
      if k < |m| {
        assert r[k] == m[k];
        EntryAt(r, k);
      }
    }
  }

  lemma {:induction false} EntryAt(m: seq<Tagged>, i: nat)
    requires DistinctIds(m) && i < |m|
    ensures Find(m, m[i].hit.id) == i
  {
  }

  /** The entry an id gets: the last full-text hit, combined with all semantic hits. */
  function EntryOf(fts: seq<Hit>, semantic: seq<Hit>, id: string): Option<Tagged> {
    if semantic != [] then
      var h := semantic[|semantic| - 1];
      var before := EntryOf(fts, semantic[..|semantic| - 1], id);
      if h.id == id then Some(WithSemantic(before, h)) else before
    else if fts != [] then
      if fts[|fts| - 1].id == id then Some(Tagged(fts[|fts| - 1], Fts)) else EntryOf(fts[..|fts| - 1], [], id)
    else None
  }

  lemma {:induction false} EntriesById(fts: seq<Hit>, semantic: seq<Hit>, id: string)
    ensures DistinctIds(AllEntries(fts, semantic))
    ensures Entry(AllEntries(fts, semantic), id) == EntryOf(fts, semantic, id)
    decreases |semantic|, |fts|
  {
    if semantic != [] {
      var h, m := semantic[|semantic| - 1], AllEntries(fts, semantic[..|semantic| - 1]);
      EntriesById(fts, semantic[..|semantic| - 1], id);
      EntriesById(fts, semantic[..|semantic| - 1], h.id);
      EntryHasId(fts, semantic[..|semantic| - 1], h.id);
      PutMeaning(m, WithSemantic(Entry(m, h.id), h), id);
    } else if fts != [] {
      EntriesById(fts[..|fts| - 1], [], id);
      PutMeaning(FtsEntries(fts[..|fts| - 1]), Tagged(fts[|fts| - 1], Fts), id);
    }
  }

  lemma {:induction false} EntryHasId(fts: seq<Hit>, semantic: seq<Hit>, id: string)
    ensures EntryOf(fts, semantic, id).Some? ==> EntryOf(fts, semantic, id).value.hit.id == id
    decreases |semantic|, |fts|
  {
    if semantic != [] {
      EntryHasId(fts, semantic[..|semantic| - 1], id);
    } else if fts != [] {
      EntryHasId(fts[..|fts| - 1], [], id);
    }
  }

  lemma {:induction false} CountMentions(hits: seq<Hit>, id: string)
    ensures CountOf(hits, id) > 0 <==> Mentions(hits, id)
  {
    if hits != [] {
      var n := |hits| - 1;
      CountMentions(hits[..n], id);
      if Mentions(hits[..n], id) {
        var i :| 0 <= i < n && hits[..n][i].id == id;
        assert hits[i].id == id;
      }
    }
  }

  /**
    An id has an entry exactly when a list mentions it, and the tag tells from where: `Both` for an
    id of both lists, and also for one that the semantic list repeats.
   */
  lemma {:induction false} TagMeaning(fts: seq<Hit>, semantic: seq<Hit>, id: string)
    ensures var e := EntryOf(fts, semantic, id);
      && (e.Some? <==> Mentions(fts, id) || Mentions(semantic, id))
      && (e.Some? ==> (e.value.source == Both <==>
            (Mentions(fts, id) && Mentions(semantic, id)) || CountOf(semantic, id) >= 2))
      && (e.Some? ==> (e.value.source == Fts <==> !Mentions(semantic, id)))
    decreases |semantic|, |fts|
  {
    CountMentions(semantic, id);
    CountMentions(fts, id);
    if semantic != [] {
      TagMeaning(fts, semantic[..|semantic| - 1], id);
      CountMentions(semantic[..|semantic| - 1], id);
    } else if fts != [] {
      TagMeaning(fts[..|fts| - 1], [], id);
      CountMentions(fts[..|fts| - 1], id);
    }
  }

  /** The score of an entry is the best of the last full-text score and all semantic scores. */
  lemma {:induction false} ScoreMeaning(fts: seq<Hit>, semantic: seq<Hit>, id: string)
    requires EntryOf(fts, semantic, id).Some?
    ensures var score := EntryOf(fts, semantic, id).value.hit.score;
      && (forall k :: 0 <= k < |semantic| && semantic[k].id == id ==> semantic[k].score <= score)
      && (EntryOf(fts, [], id).Some? ==> EntryOf(fts, [], id).value.hit.score <= score)
      && ((exists k :: 0 <= k < |semantic| && semantic[k].id == id && semantic[k].score == score)
          || (EntryOf(fts, [], id).Some? && EntryOf(fts, [], id).value.hit.score == score))
    decreases |semantic|
  {
    if semantic != [] {
      var n := |semantic| - 1;
      var h, rest := semantic[n], semantic[..n];
      assert forall k :: 0 <= k < n ==> rest[k] == semantic[k];
      if EntryOf(fts, rest, id).Some? {
        ScoreMeaning(fts, rest, id);
        var before := EntryOf(fts, rest, id).value.hit.score;
        if h.id != id || before >= h.score {
          if k :| 0 <= k < n && rest[k].id == id && rest[k].score == before {
            assert semantic[k].id == id && semantic[k].score == before;
          }
        } else {
          assert semantic[n].id == id && semantic[n].score == EntryOf(fts, semantic, id).value.hit.score;
        }
      } else {
        NoEntry(fts, rest, id);
        assert semantic[n].id == id;
      }
    }
  }

  lemma {:induction false} NoEntry(fts: seq<Hit>, semantic: seq<Hit>, id: string)
    requires EntryOf(fts, semantic, id).None?
    ensures EntryOf(fts, [], id).None? && !Mentions(semantic, id)
    decreases |semantic|
  {
    TagMeaning(fts, semantic, id);
    TagMeaning(fts, [], id);
  }

  // ---------- Texts ----------

  predicate Contains(s: string, part: string) {
    exists i :: 0 <= i <= |s| && part <= s[i..]
  }

  lemma {:induction false} ContainsWithin(a: string, s: string, b: string, part: string)
    requires Contains(s, part)
    ensures Contains(a + s + b, part)
  {
    var i :| 0 <= i <= |s| && part <= s[i..];
    assert (a + s + b)[|a| + i..] == s[i..] + b;
    assert part <= s[i..] + b;
  }

  lemma {:induction false} BodiesMerged(a: string, b: string)
    ensures a == "" ==> MergedBody(a, b) == b
    ensures b == "" ==> MergedBody(a, b) == a
    ensures a != "" && b != "" ==> MergedBody(a, b) == a + "\n---\n" + b
    ensures Contains(MergedBody(a, b), a) && Contains(MergedBody(a, b), b)
  {
    var m := MergedBody(a, b);
    assert a <= a[0..] && b <= b[0..] && m[0..] == m && m[|m|..] == "";
    if a != "" && b != "" {
      var s := a + "\n---\n" + b;
      assert a <= s[0..];
      assert s[|a| + 5..] == b;
    }
  }

  /** A text once in an entry stays in it when more semantic hits are merged in. */
  lemma {:induction false} MergeKeepsText(a: string, b: string, part: string)
    requires Contains(a, part)
    ensures Contains(MergedBody(a, b), part)
  {
    if a != "" && b != "" {
      ContainsWithin("", a, "\n---\n" + b, part);
      assert "" + a + ("\n---\n" + b) == MergedBody(a, b);
    } else if a == "" {
      assert part == "";
      assert part <= b[0..];
    }
  }

  /** The text of an entry holds the texts of the last full-text hit and of all semantic hits of the id. */
  lemma {:induction false} TextsKept(fts: seq<Hit>, semantic: seq<Hit>, id: string)
    requires EntryOf(fts, semantic, id).Some?
    ensures var body := EntryOf(fts, semantic, id).value.hit.body;
      && (EntryOf(fts, [], id).Some? ==> Contains(body, EntryOf(fts, [], id).value.hit.body))
      && (forall k :: 0 <= k < |semantic| && semantic[k].id == id ==> Contains(body, semantic[k].body))
    decreases |semantic|
  {
    if semantic == [] {
      var body := EntryOf(fts, semantic, id).value.hit.body;
      assert body <= body[0..];
    } else {
      var n := |semantic| - 1;
      var h, rest := semantic[n], semantic[..n];
      var before, body := EntryOf(fts, rest, id), EntryOf(fts, semantic, id).value.hit.body;
      assert forall k :: 0 <= k < n ==> rest[k] == semantic[k];
      if before.Some? {
        TextsKept(fts, rest, id);
        if h.id == id {
          BodiesMerged(before.value.hit.body, h.body);
          forall part | Contains(before.value.hit.body, part) ensures Contains(body, part) {
            MergeKeepsText(before.value.hit.body, h.body, part);
          }
        }
      } else {
        NoEntry(fts, rest, id);
        assert body <= body[0..];
      }
    }
  }

  /**
    A hit of both lists: the full-text hit, with the better score and both texts, one under the
    other, or the one there is.
   */
  lemma {:induction false} SharedHit(fts: seq<Hit>, h: Hit)
    requires EntryOf(fts, [], h.id).Some?
    ensures var f, e := EntryOf(fts, [], h.id).value.hit, EntryOf(fts, [h], h.id);
      && e.Some? && e.value.source == Both && e.value.hit.id == h.id && e.value.hit.title == f.title
      && (f.body != "" && h.body != "" ==> e.value.hit.body == f.body + "\n---\n" + h.body)
      && (f.body == "" ==> e.value.hit.body == h.body) && (h.body == "" ==> e.value.hit.body == f.body)
      && (f.score >= h.score ==> e.value.hit.score == f.score) && (f.score < h.score ==> e.value.hit.score == h.score)
  {
    assert [h][..0] == [];
    EntryHasId(fts, [], h.id);
  }

  /** A hit of one list is that hit: the last of the full-text list, or the only one of the semantic list. */
  lemma {:induction false} UnsharedHit(fts: seq<Hit>, h: Hit)
    ensures EntryOf(fts + [h], [], h.id) == Some(Tagged(h, Fts))
    ensures !Mentions(fts, h.id) ==> EntryOf(fts, [h], h.id) == Some(Tagged(h, Semantic))
  {
    assert (fts + [h])[|fts|] == h;
    assert [h][..0] == [];
    if !Mentions(fts, h.id) {
      TagMeaning(fts, [], h.id);
    }
  }

  /** Full-text hits alone come as they are, as many as the limit says, which is twenty unless given. */
  lemma {:induction false} FtsOnlyMeaning(fts: seq<Hit>, limit: nat)
    ensures DEFAULT_LIMIT == 20
    ensures |FtsOnly(fts, limit)| == if limit < |fts| then limit else |fts|
    ensures forall k :: 0 <= k < |FtsOnly(fts, limit)| ==> FtsOnly(fts, limit)[k] == Tagged(fts[k], Fts)
  {
  }

  /** A negative limit cuts as many off the end. */
  lemma {:induction false} NegativeLimit<T>(s: seq<T>, off: int)
    requires off > 0
    ensures FirstOf(s, -off) == if off < |s| then s[..|s| - off] else []
  {
  }

  // ---------- Order ----------

  /** `a` comes before `b`: it scores more, or as much and was entered into `m` earlier. */
  predicate Precedes(m: seq<Tagged>, a: Tagged, b: Tagged) {
    a.hit.score > b.hit.score || (a.hit.score == b.hit.score && Find(m, a.hit.id) < Find(m, b.hit.id))
  }

  ghost predicate InOrder(m: seq<Tagged>, s: seq<Tagged>) {
    forall i, j :: 0 <= i < j < |s| ==> Precedes(m, s[i], s[j])
  }

  lemma {:induction false} InsertedKeeps(s: seq<Tagged>, t: Tagged)
    ensures multiset(Inserted(s, t)) == multiset(s) + multiset{t}
    ensures |Inserted(s, t)| == |s| + 1
  {
    if s != [] {
      var n := |s| - 1;
      InsertedKeeps(s[..n], t);
      assert s == s[..n] + [s[n]];
    }
  }

  lemma {:induction false} LastApart(m: seq<Tagged>)
    requires m != []
    ensures multiset(m) == multiset(m[..|m| - 1]) + multiset{m[|m| - 1]}
  {
    assert m == m[..|m| - 1] + [m[|m| - 1]];
  }

  lemma {:induction false} SortedKeeps(m: seq<Tagged>)
    ensures multiset(Sorted(m)) == multiset(m) && |Sorted(m)| == |m|
  {
    if m != [] {
      var n := |m| - 1;
      SortedKeeps(m[..n]);
      InsertedKeeps(Sorted(m[..n]), m[n]);
      LastApart(m);
    }
  }

  /** Inserting the entry that was made last keeps the order. */
  lemma {:induction false} InsertedInOrder(m: seq<Tagged>, s: seq<Tagged>, t: Tagged)
    requires InOrder(m, s) && forall k :: 0 <= k < |s| ==> Find(m, s[k].hit.id) < Find(m, t.hit.id)
    ensures InOrder(m, Inserted(s, t))
  {
    if s != [] {
      var n := |s| - 1;
      if s[n].hit.score >= t.hit.score {
        forall k | 0 <= k < |s| ensures Precedes(m, s[k], t) {
          if k < n { assert Precedes(m, s[k], s[n]); }
        }
      } else {
        InsertedInOrder(m, s[..n], t);
        var r := Inserted(s[..n], t);
        forall k | 0 <= k < |r| ensures Precedes(m, r[k], s[n]) {
          InsertedAt(s[..n], t, k);
          if r[k] != t {
            var j :| 0 <= j < n && s[..n][j] == r[k];
            assert Precedes(m, s[j], s[n]);
          }
        }
      }
    }
  }

  lemma {:induction false} InsertedAt(s: seq<Tagged>, t: Tagged, k: nat)
    requires k < |Inserted(s, t)|
    ensures Inserted(s, t)[k] == t || Inserted(s, t)[k] in s
  {
    InsertedKeeps(s, t);
    var r := Inserted(s, t);
    assert r[k] in multiset(r);
    assert r[k] in multiset(s) + multiset{t};
  }

  lemma {:induction false} SortedPrefixInOrder(m: seq<Tagged>, n: nat)
    requires DistinctIds(m) && n <= |m|
    ensures InOrder(m, Sorted(m[..n]))
  {
    if n > 0 {
      assert m[..n][..n - 1] == m[..n - 1];
      SortedPrefixInOrder(m, n - 1);
      var s := Sorted(m[..n - 1]);
      SortedKeeps(m[..n - 1]);
      forall k | 0 <= k < |s| ensures Find(m, s[k].hit.id) < Find(m, m[n - 1].hit.id) {
        assert s[k] in multiset(s);
        var j :| 0 <= j < n - 1 && m[..n - 1][j] == s[k];
        EntryAt(m, j);
        EntryAt(m, n - 1);
      }
      InsertedInOrder(m, s, m[n - 1]);
    }
  }

  /** Sorting rearranges the entries into the order of score, then entry. */
  lemma {:induction false} SortedInOrder(m: seq<Tagged>)
    requires DistinctIds(m)
    ensures InOrder(m, Sorted(m)) && multiset(Sorted(m)) == multiset(m)
  {
    assert m[..|m|] == m;
    SortedPrefixInOrder(m, |m|);
    SortedKeeps(m);
  }

  lemma {:induction false} SameFirst(m: seq<Tagged>, a: seq<Tagged>, b: seq<Tagged>)
    requires InOrder(m, a) && InOrder(m, b) && multiset(a) == multiset(b) && a != []
    ensures b != [] && a[0] == b[0]
  {
    assert a[0] in multiset(b);
    var j :| 0 <= j < |b| && b[j] == a[0];
    assert b[0] in multiset(a);
    var k :| 0 <= k < |a| && a[k] == b[0];
    var x, y := a[0], b[0];
    assert (j == 0 || Precedes(m, y, x)) && (k == 0 || Precedes(m, x, y));
  }

  lemma {:induction false} RestOf(a: seq<Tagged>)
    requires a != []
    ensures multiset(a[1..]) == multiset(a) - multiset{a[0]}
  {
    assert a == [a[0]] + a[1..];
  }

  lemma {:induction false} RestInOrder(m: seq<Tagged>, a: seq<Tagged>)
    requires InOrder(m, a) && a != []
    ensures InOrder(m, a[1..])
  {
  }

  /** There is only one such arrangement, so any stable sort gives this one. */
  lemma {:induction false} OrderIsUnique(m: seq<Tagged>, a: seq<Tagged>, b: seq<Tagged>)
    requires InOrder(m, a) && InOrder(m, b) && multiset(a) == multiset(b)
    ensures a == b
  {
    if a == [] {
      assert |multiset(b)| == 0;
    } else {
      SameFirst(m, a, b);
      RestOf(a);
      RestOf(b);
      RestInOrder(m, a);
      RestInOrder(m, b);
      OrderIsUnique(m, a[1..], b[1..]);
      assert a == [a[0]] + a[1..] && b == [b[0]] + b[1..];
    }
  }

  // ---------- The merged list ----------

  function IdsOf(m: seq<Tagged>): set<string> {
    set t | t in m :: t.hit.id
  }

  lemma {:induction false} DistinctCount(m: seq<Tagged>)
    requires DistinctIds(m)
    ensures |IdsOf(m)| == |m|
  {
    if m != [] {
      var n := |m| - 1;
      DistinctCount(m[..n]);
      assert m == m[..n] + [m[n]];
      assert IdsOf(m) == IdsOf(m[..n]) + {m[n].hit.id};
      assert m[n].hit.id !in IdsOf(m[..n]);
    }
  }

  function HitIds(hits: seq<Hit>): set<string> {
    set h | h in hits :: h.id
  }

  lemma {:induction false} AllIds(fts: seq<Hit>, semantic: seq<Hit>)
    ensures IdsOf(AllEntries(fts, semantic)) == HitIds(fts) + HitIds(semantic)
  {
    var m := AllEntries(fts, semantic);
    forall id ensures id in IdsOf(m) <==> id in HitIds(fts) + HitIds(semantic) {
      EntriesById(fts, semantic, id);
      TagMeaning(fts, semantic, id);
      EntryIffId(m, id);
      MentionsIffId(fts, id);
      MentionsIffId(semantic, id);
    }
  }

  lemma {:induction false} EntryIffId(m: seq<Tagged>, id: string)
    ensures Entry(m, id).Some? <==> id in IdsOf(m)
  {
    if id in IdsOf(m) {
      var t :| t in m && t.hit.id == id;
      var i :| 0 <= i < |m| && m[i] == t;
    }
    assert Find(m, id) < |m| ==> m[Find(m, id)] in m;
  }

  lemma {:induction false} MentionsIffId(hits: seq<Hit>, id: string)
    ensures Mentions(hits, id) <==> id in HitIds(hits)
  {
    if Mentions(hits, id) {
      var i :| 0 <= i < |hits| && hits[i].id == id;
      assert hits[i] in hits;
    }
  }

  /** Position `k` of the sorted entries holds what its id is due, and the order is the one above. */
  lemma {:induction false} SortedEntries(fts: seq<Hit>, semantic: seq<Hit>, k: nat)
    requires k < |Sorted(AllEntries(fts, semantic))|
    ensures var t := Sorted(AllEntries(fts, semantic))[k]; EntryOf(fts, semantic, t.hit.id) == Some(t)
  {
    var m := AllEntries(fts, semantic);
    var t := Sorted(m)[k];
    EntriesById(fts, semantic, t.hit.id);
    SortedKeeps(m);
    assert t in multiset(Sorted(m));
    var j :| 0 <= j < |m| && m[j] == t;
    EntryAt(m, j);
  }

  /**
    The merged hits are the first of all ids of both lists, each id once with the entry it is due,
    in order of score and then of first mention.
   */
  lemma {:induction false} MergedLaws(fts: seq<Hit>, semantic: seq<Hit>, limit: nat)
    ensures var r, m := MergedHits(fts, semantic, limit), AllEntries(fts, semantic);
      && |r| == (if limit < |HitIds(fts) + HitIds(semantic)| then limit else |HitIds(fts) + HitIds(semantic)|)
      && InOrder(m, r)
      && (forall k :: 0 <= k < |r| ==> EntryOf(fts, semantic, r[k].hit.id) == Some(r[k]))
      && (forall i, j :: 0 <= i < j < |r| ==> r[i].hit.id != r[j].hit.id)
  {
    var r, m := MergedHits(fts, semantic, limit), AllEntries(fts, semantic);
    EntriesById(fts, semantic, "");
    AllIds(fts, semantic);
    DistinctCount(m);
    SortedInOrder(m);
    SortedKeeps(m);
    forall k | 0 <= k < |r| ensures EntryOf(fts, semantic, r[k].hit.id) == Some(r[k]) {
      SortedEntries(fts, semantic, k);
    }
    forall i, j | 0 <= i < j < |r| ensures r[i].hit.id != r[j].hit.id {
      var x, y := r[i], r[j];
      assert x == y || x.hit.id != y.hit.id;
      assert Precedes(m, x, y);
    }
  }

  lemma {:induction false} FirstOfAt<T>(s: seq<T>, limit: nat, k: nat)
    requires k < |FirstOf(s, limit)|
    ensures k < |s| && FirstOf(s, limit)[k] == s[k] && FirstOf(s, limit) <= s
  {
  }

  /** No hit that was cut off scores more than one that was kept. */
  lemma {:induction false} DroppedScoreLess(fts: seq<Hit>, semantic: seq<Hit>, limit: nat, id: string, k: nat)
    requires k < |MergedHits(fts, semantic, limit)| && EntryOf(fts, semantic, id).Some?
    requires id !in IdsOf(MergedHits(fts, semantic, limit))
    ensures EntryOf(fts, semantic, id).value.hit.score <= MergedHits(fts, semantic, limit)[k].hit.score
  {
    var m := AllEntries(fts, semantic);
    var s, r := Sorted(m), MergedHits(fts, semantic, limit);
    var j := PlaceOf(fts, semantic, id);
    EntriesById(fts, semantic, id);
    SortedInOrder(m);
    FirstOfAt(s, limit, k);
    assert forall i :: 0 <= i < |r| ==> r[i] == s[i] && r[i] in r;
    assert Precedes(m, s[k], s[j]);
  }

  /** The entry of an id stands somewhere among the sorted entries. */
  lemma {:induction false} PlaceOf(fts: seq<Hit>, semantic: seq<Hit>, id: string) returns (j: nat)
    requires EntryOf(fts, semantic, id).Some?
    ensures j < |Sorted(AllEntries(fts, semantic))|
    ensures Sorted(AllEntries(fts, semantic))[j] == EntryOf(fts, semantic, id).value
    ensures EntryOf(fts, semantic, id).value.hit.id == id
  {
    var m, t := AllEntries(fts, semantic), EntryOf(fts, semantic, id).value;
    EntriesById(fts, semantic, id);
    EntryHasId(fts, semantic, id);
    SortedKeeps(m);
    assert t in multiset(Sorted(m));
    j :| 0 <= j < |Sorted(m)| && Sorted(m)[j] == t;
  }

  lemma {:induction false} PutKeepsPlaces(m: seq<Tagged>, t: Tagged, id: string)
    ensures Find(m, id) < |m| ==> Find(Put(m, t), id) == Find(m, id)
    ensures Find(m, id) == |m| ==> Find(Put(m, t), id) >= |m|
  {
    var r := Put(m, t);
    forall k | 0 <= k < |m| ensures r[k].hit.id == m[k].hit.id { }
    var i, j := Find(m, id), Find(r, id);
    assert j < |m| ==> m[j].hit.id == id;
    assert i < |m| ==> r[i].hit.id == id;
  }

  /** Ids of the full-text list are entered before all ids that only the semantic list has. */
  lemma {:induction false} FtsEnteredFirst(fts: seq<Hit>, semantic: seq<Hit>, id: string)
    ensures Mentions(fts, id) <==> Find(AllEntries(fts, semantic), id) < |FtsEntries(fts)|
    ensures |AllEntries(fts, semantic)| >= |FtsEntries(fts)|
  {
    if semantic != [] {
      var h, m := semantic[|semantic| - 1], AllEntries(fts, semantic[..|semantic| - 1]);
      FtsEnteredFirst(fts, semantic[..|semantic| - 1], id);
      PutKeepsPlaces(m, WithSemantic(Entry(m, h.id), h), id);
    } else {
      EntriesById(fts, [], id);
      TagMeaning(fts, [], id);
    }
  }

  /** At equal scores a hit of the full-text list comes before one of the semantic list alone. */
  lemma {:induction false} FtsWinsTies(fts: seq<Hit>, semantic: seq<Hit>, limit: nat, i: nat, j: nat)
    requires i < |MergedHits(fts, semantic, limit)| && j < |MergedHits(fts, semantic, limit)|
    requires var r := MergedHits(fts, semantic, limit);
      r[i].hit.score == r[j].hit.score && Mentions(fts, r[i].hit.id) && !Mentions(fts, r[j].hit.id)
    ensures i < j
  {
    var r, m := MergedHits(fts, semantic, limit), AllEntries(fts, semantic);
    EntriesById(fts, semantic, "");
    SortedInOrder(m);
    FtsEnteredFirst(fts, semantic, r[i].hit.id);
    FtsEnteredFirst(fts, semantic, r[j].hit.id);
    assert j < i ==> Precedes(m, r[j], r[i]);
  }

  // ---------- The bridge ----------

  function FtsOnly(fts: seq<Hit>, limit: int): seq<Tagged> {
    FirstOf(seq(|fts|, i requires 0 <= i < |fts| => Tagged(fts[i], Fts)), limit)
  }

  method MergeMemoryHits(fts: seq<Hit>, semantic: seq<Hit>, limit: int) returns (r: seq<Tagged>)
    ensures r == MergedHits(fts, semantic, limit)
  {
    var byId: seq<Tagged> := [];
    for k := 0 to |fts|
      invariant byId == FtsEntries(fts[..k])
    {
      byId := Put(byId, Tagged(fts[k], Fts));
      assert fts[..k + 1][..k] == fts[..k];
    }
    assert fts[..|fts|] == fts;
    for k := 0 to |semantic|
      invariant byId == AllEntries(fts, semantic[..k])
    {
      var hit := semantic[k];
      var i := Find(byId, hit.id);
      if i < |byId| {
        var existing := byId[i].hit;
        byId := byId[i := Tagged(existing.(body := MergedBody(existing.body, hit.body),
                                           score := Max(existing.score, hit.score)), Both)];
      } else {
        byId := byId + [Tagged(hit, Semantic)];
      }
      assert semantic[..k + 1][..k] == semantic[..k];
    }
    assert semantic[..|semantic|] == semantic;
    r := FirstOf(Sorted(byId), limit);
  }

  /**
    The search entry point.  Without an adapter, with the bridge off or when the recall fails, the
    result is the full-text hits in the order given, which need not be that of the scores.
   */
  method BridgeMemorySearch(fts: seq<Hit>, recall: Option<Option<seq<Hit>>>, active: bool, limit: Option<int>)
    returns (r: seq<Tagged>)
    ensures var n := if limit.Some? then limit.value else DEFAULT_LIMIT;
      r == if active && recall.Some? && recall.value.Some? then MergedHits(fts, recall.value.value, n) else FtsOnly(fts, n)
  {
    var n := if limit.Some? then limit.value else DEFAULT_LIMIT;
    if recall.None? || !active || recall.value.None? {
      return FtsOnly(fts, n);
    }
    r := MergeMemoryHits(fts, recall.value.value, n);
  }
}
