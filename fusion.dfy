/**
 Step 6 of `search_loop`: the reranker's scores are put back on the retrieved
 documents by position, for as many indices as both lists have, and the resulting
 list is sorted in place by score, highest first, with Python's stable
 `list.sort(key=..., reverse=True)`.
 */
module Fusion {
  import opened Documents

  /** One entry of the fused list: a retrieved document, the rerank score put on it, and
      its index in the retrieval order. The index is not a field of the Python dicts; it
      is carried so that stability can be stated. */
  datatype Ranked = Ranked(doc: Doc, score: real, pos: nat)

  /** Values of the fused dicts: the text fields of the retrieved document and the score. */
  datatype Value = Text(text: string) | Score(score: real)

  /** The list comprehension `[{**results[i], "score": scores[i]} for i in range(min(...))]`. */
  function Zip(results: seq<Doc>, scores: seq<real>): seq<Ranked>
  {
    seq(Min(|results|, |scores|), i requires 0 <= i < Min(|results|, |scores|) =>
      Ranked(results[i], scores[i], i))
  }

  /** `x` may stand before `y` in the sorted list: a strictly higher score, or the same
      score and an earlier retrieval index. */
  predicate Before(x: Ranked, y: Ranked)
  {
    x.score > y.score || (x.score == y.score && x.pos < y.pos)
  }

  predicate OrderedBetween(s: seq<Ranked>, lo: int, hi: int)
    requires 0 <= lo <= hi <= |s|
  {
    forall k, l :: lo <= k < l < hi ==> Before(s[k], s[l])
  }

  /** Sorted by descending score, ties in retrieval order. */
  predicate Ordered(s: seq<Ranked>)
  {
    OrderedBetween(s, 0, |s|)
  }

  predicate SortedDescending(s: seq<Ranked>)
  {
    forall k, l :: 0 <= k < l < |s| ==> s[k].score >= s[l].score
  }

  predicate TiesInRetrievalOrder(s: seq<Ranked>)
  {
    forall k, l :: 0 <= k < l < |s| && s[k].score == s[l].score ==> s[k].pos < s[l].pos
  }

  predicate PosIncreasing(s: seq<Ranked>)
  {
    forall k, l :: 0 <= k < l < |s| ==> s[k].pos < s[l].pos
  }

  /** Being ordered is being sorted by descending score with ties kept in retrieval order. */
  lemma OrderedIsStableDescending(s: seq<Ranked>)
    ensures Ordered(s) <==> SortedDescending(s) && TiesInRetrievalOrder(s)
  {
  }

  /** What the fused list is: a permutation of the zipped prefix, ordered. */
  ghost predicate IsFusion(results: seq<Doc>, scores: seq<real>, final: seq<Ranked>)
  {
    multiset(final) == multiset(Zip(results, scores)) && Ordered(final)
  }

  /** Exchanges two neighbouring entries. */
  method SwapWithPrevious(a: array<Ranked>, j: int)
    requires 0 < j < a.Length
    modifies a
    ensures a[..] == old(a[..])[j - 1 := old(a[j])][j := old(a[j - 1])]
    ensures multiset(a[..]) == old(multiset(a[..]))
  {
    a[j - 1], a[j] := a[j], a[j - 1];
  }

  /** The state of an insertion pass with the moving entry `x` at `j`: the entries before
      and after it are each ordered, everything before `j` stands before everything after
      it, the entries after it have lower scores, and `x` has the highest retrieval index. */
  ghost predicate Inserting(s: seq<Ranked>, i: int, j: int, x: Ranked)
  {
    0 <= j <= i < |s| && s[j] == x
    && OrderedBetween(s, 0, j) && OrderedBetween(s, j + 1, i + 1)
    && (forall k, l :: 0 <= k < j < l <= i ==> Before(s[k], s[l]))
    && (forall l :: j < l <= i ==> s[l].score < x.score)
    && (forall k :: 0 <= k <= i && k != j ==> s[k].pos < x.pos)
  }

  /** Moving `x` one place left past an entry with a lower score keeps the pass's state. */
  lemma InsertingStep(s: seq<Ranked>, i: int, j: int, x: Ranked)
    requires Inserting(s, i, j, x) && j > 0 && s[j - 1].score < x.score
    ensures Inserting(s[j - 1 := x][j := s[j - 1]], i, j - 1, x)
  {
  }

  /** When the pass stops, the first `i + 1` entries are ordered. */
  lemma InsertingDone(s: seq<Ranked>, i: int, j: int, x: Ranked)
    requires Inserting(s, i, j, x) && (j == 0 || s[j - 1].score >= x.score)
    ensures OrderedBetween(s, 0, i + 1)
    ensures forall k :: 0 <= k <= i ==> s[k].pos <= x.pos
  {
  }

  /** One pass of the insertion sort: the entry at `i` moves left past every entry with a
      strictly lower score, so that the first `i + 1` entries are ordered. */
  method InsertIntoPrefix(a: array<Ranked>, i: int)
    requires 0 <= i < a.Length
    requires OrderedBetween(a[..], 0, i)
    requires forall k :: 0 <= k < i ==> a[k].pos < a[i].pos
    modifies a
    ensures OrderedBetween(a[..], 0, i + 1)
    ensures a[i + 1..] == old(a[i + 1..])
    ensures forall k :: 0 <= k <= i ==> a[k].pos <= old(a[i].pos)
    ensures multiset(a[..]) == old(multiset(a[..]))
  {
    ghost var x := a[i];
    var j := i;
    while j > 0 && a[j - 1].score < a[j].score
      invariant Inserting(a[..], i, j, x)
      invariant a[i + 1..] == old(a[i + 1..])
      invariant multiset(a[..]) == old(multiset(a[..]))
    {
      InsertingStep(a[..], i, j, x);
      SwapWithPrevious(a, j);
      j := j - 1;
    }
    InsertingDone(a[..], i, j, x);
  }

  /** `final_results.sort(key=lambda x: x["score"], reverse=True)` as an insertion sort.
      The entries come in retrieval order, and an entry never moves past one with the same
      score, so equal scores stay in that order, as Python's stable sort keeps them. */
  method SortByScoreDescending(a: array<Ranked>)
    requires PosIncreasing(a[..])
    modifies a
    ensures multiset(a[..]) == old(multiset(a[..]))
    ensures Ordered(a[..])
  {
    var i := 0;
    while i < a.Length
      invariant 0 <= i <= a.Length
      invariant OrderedBetween(a[..], 0, i)
      invariant a[i..] == old(a[i..])
      invariant forall k, l :: 0 <= k < i <= l < a.Length ==> a[k].pos < a[l].pos
      invariant multiset(a[..]) == old(multiset(a[..]))
    {
      ghost var before := a[..];
      InsertIntoPrefix(a, i);
      forall k, l | 0 <= k <= i < l < a.Length
        ensures a[k].pos < a[l].pos
      {
        assert before[i] == old(a[i]) && before[l] == old(a[l]) && a[l] == before[l];
      }
      i := i + 1;
    }
  }

  /** A reference definition of the sorted list, independent of the array algorithm:
      `x` goes in front of the first entry it may stand before. */
  function Insert(x: Ranked, s: seq<Ranked>): (r: seq<Ranked>)
    ensures multiset(r) == multiset(s) + multiset{x}
  {
    if s == [] then [x]
    else
      assert s == [s[0]] + s[1..];
      if Before(s[0], x) then [s[0]] + Insert(x, s[1..]) else [x] + s
  }

  function StableSortByScore(s: seq<Ranked>): (r: seq<Ranked>)
    ensures multiset(r) == multiset(s)
  {
    if s == [] then []
    else
      assert s == [s[0]] + s[1..];
      Insert(s[0], StableSortByScore(s[1..]))
  }

  lemma {:induction false} InsertOrdered(x: Ranked, s: seq<Ranked>)
    requires Ordered(s)
    requires forall k :: 0 <= k < |s| ==> s[k].pos != x.pos
    ensures Ordered(Insert(x, s))
  {
    if s != [] && Before(s[0], x) {
      assert Ordered(s[1..]);
      InsertOrdered(x, s[1..]);
      var r := Insert(x, s[1..]);
      forall l | 0 < l < |r| + 1
        ensures Before(s[0], ([s[0]] + r)[l])
      {
        assert r[l - 1] in multiset(s[1..]) + multiset{x};
      }
    }
  }

  lemma {:induction false} StableSortByScoreOrdered(s: seq<Ranked>)
    requires PosIncreasing(s)
    ensures Ordered(StableSortByScore(s))
  {
    if s != [] {
      assert PosIncreasing(s[1..]);
      StableSortByScoreOrdered(s[1..]);
      var t := StableSortByScore(s[1..]);
      forall k | 0 <= k < |t|
        ensures t[k].pos != s[0].pos
      {
        assert t[k] in multiset(s[1..]);
      }
      InsertOrdered(s[0], t);
    }
  }

  /** The fusion step of `search_loop`: zip by position, then sort. */
  method Fuse(results: seq<Doc>, scores: seq<real>) returns (final: seq<Ranked>)
    ensures |final| == Min(|results|, |scores|)
    ensures multiset(final) == multiset(Zip(results, scores))
    ensures forall e :: e in final ==>
      e.pos < |results| && e.pos < |scores| && e.doc == results[e.pos] && e.score == scores[e.pos]
    ensures SortedDescending(final)
    ensures TiesInRetrievalOrder(final)
    ensures final == StableSortByScore(Zip(results, scores))
  {
    var z := Zip(results, scores);
    var a := new Ranked[|z|](i requires 0 <= i < |z| => z[i]);
    assert a[..] == z;
    SortByScoreDescending(a);
    final := a[..];
    forall e | e in final
      ensures e.pos < |results| && e.pos < |scores| && e.doc == results[e.pos] && e.score == scores[e.pos]
    {
      assert e in multiset(z);
    }
    assert |final| == |multiset(final)|;
    OrderedIsStableDescending(final);
    StableSortByScoreOrdered(z);
    OrderedPermutationUnique(final, StableSortByScore(z));
  }
  /** An ordered list is determined by its entries: two ordered permutations of one
      another are equal. So the fused list depends only on the retrieved documents and
      the scores, as Python's stable sort promises. */
  lemma {:induction false} OrderedPermutationUnique(s: seq<Ranked>, t: seq<Ranked>)
    requires Ordered(s) && Ordered(t) && multiset(s) == multiset(t)
    ensures s == t
    decreases |s|
  {
    assert |s| == |multiset(s)| == |multiset(t)| == |t|;
    if s != [] {
      OrderedHeadsAgree(s, t);
      TailsArePermutations(s, t);
      OrderedTail(s);
      OrderedTail(t);
      OrderedPermutationUnique(s[1..], t[1..]);
      assert s == [s[0]] + s[1..] && t == [t[0]] + t[1..];
    }
  }

  lemma TailsArePermutations(s: seq<Ranked>, t: seq<Ranked>)
    requires s != [] && t != [] && s[0] == t[0] && multiset(s) == multiset(t)
    ensures multiset(s[1..]) == multiset(t[1..])
  {
    assert s == [s[0]] + s[1..] && t == [t[0]] + t[1..];
    assert multiset(s[1..]) == multiset(s) - multiset{s[0]};
    assert multiset(t[1..]) == multiset(t) - multiset{t[0]};
  }

  lemma OrderedTail(s: seq<Ranked>)
    requires Ordered(s) && s != []
    ensures Ordered(s[1..])
  {
    forall k, l | 0 <= k < l < |s| - 1
      ensures Before(s[1..][k], s[1..][l])
    {
      assert s[1..][k] == s[k + 1] && s[1..][l] == s[l + 1];
    }
  }

  /** The first entry of an ordered list stands before every other entry, so two ordered
      permutations of one another start alike. */
  lemma OrderedHeadsAgree(s: seq<Ranked>, t: seq<Ranked>)
    requires Ordered(s) && Ordered(t) && multiset(s) == multiset(t) && s != [] && t != []
    ensures s[0] == t[0]
  {
    assert s[0] in multiset(s) && t[0] in multiset(t);
    assert s[0] in t && t[0] in s;
    HeadComesFirst(t, s[0]);
    HeadComesFirst(s, t[0]);
  }

  lemma HeadComesFirst(s: seq<Ranked>, x: Ranked)
    requires Ordered(s) && x in s
    ensures x == s[0] || Before(s[0], x)
  {
    var k :| 0 <= k < |s| && s[k] == x;
    if k > 0 {
      assert Before(s[0], s[k]);
    }
  }

  /** Same results and same scores give the same fused list. */
  lemma FusionDeterministic(results: seq<Doc>, scores: seq<real>, f1: seq<Ranked>, f2: seq<Ranked>)
    requires IsFusion(results, scores, f1) && IsFusion(results, scores, f2)
    ensures f1 == f2
  {
    OrderedPermutationUnique(f1, f2);
  }

  /** Three candidates, scores for the first two only: the third is dropped, and the
      second, with the higher score, comes first. */
  lemma FusionDropsUnscored(d1: Doc, d2: Doc, d3: Doc, final: seq<Ranked>)
    requires IsFusion([d1, d2, d3], [0.9, 0.95], final)
    ensures final == [Ranked(d2, 0.95, 1), Ranked(d1, 0.9, 0)]
  {
    var expected := [Ranked(d2, 0.95, 1), Ranked(d1, 0.9, 0)];
    assert Zip([d1, d2, d3], [0.9, 0.95]) == [Ranked(d1, 0.9, 0), Ranked(d2, 0.95, 1)];
    assert multiset(expected) == multiset(Zip([d1, d2, d3], [0.9, 0.95]));
    OrderedPermutationUnique(final, expected);
  }

  /** The entries of `doc` with `"score"` given the new score and every other value kept. */
  function Rescored(doc: Doc, score: real): (r: seq<(string, Value)>)
    ensures |r| == |doc|
  {
    if doc == [] then []
    else [(doc[0].0, if doc[0].0 == "score" then Score(score) else Text(doc[0].1))] + Rescored(doc[1..], score)
  }

  /** The dict `{**doc, "score": score}`: a key already present keeps its place and takes
      the new value; otherwise `"score"` is added last. */
  function Merged(doc: Doc, score: real): seq<(string, Value)>
  {
    if HasKey(doc, "score") then Rescored(doc, score) else Rescored(doc, score) + [("score", Score(score))]
  }

  lemma {:induction false} RescoredLookup(doc: Doc, score: real, key: string, default: string)
    ensures forall i :: 0 <= i < |doc| ==> Rescored(doc, score)[i].0 == doc[i].0
    ensures HasKey(doc, "score") ==> Get(Rescored(doc, score), "score", Text(default)) == Score(score)
    ensures key != "score" ==> Get(Rescored(doc, score), key, Text(default)) == Text(Get(doc, key, default))
  {
    if doc != [] {
      RescoredLookup(doc[1..], score, key, default);
      if doc[0].0 != "score" && HasKey(doc, "score") {
        var i :| 0 <= i < |doc| && doc[i].0 == "score";
        assert doc[1..][i - 1].0 == "score";
      }
    }
  }

  lemma {:induction false} GetAfterMissingKey<V>(d: seq<(string, V)>, e: seq<(string, V)>, key: string, default: V)
    requires !HasKey(d, key)
    ensures Get(d + e, key, default) == Get(e, key, default)
  {
    if d != [] {
      assert d[0].0 != key;
      assert (d + e)[1..] == d[1..] + e;
      assert !HasKey(d[1..], key);
      assert (d + e)[0] == d[0];
      assert Get(d + e, key, default) == Get(d[1..] + e, key, default);
      GetAfterMissingKey(d[1..], e, key, default);
    } else {
      assert d + e == e;
    }
  }

  lemma {:induction false} RescoredKeys(doc: Doc, score: real, key: string)
    ensures HasKey(Rescored(doc, score), key) == HasKey(doc, key)
  {
    RescoredLookup(doc, score, key, "");
    if HasKey(doc, key) {
      var i :| 0 <= i < |doc| && doc[i].0 == key;
      assert Rescored(doc, score)[i].0 == key;
    }
    if HasKey(Rescored(doc, score), key) {
      var i :| 0 <= i < |doc| && Rescored(doc, score)[i].0 == key;
      assert doc[i].0 == key;
    }
  }

  /** In a fused entry, `"score"` is the rerank score, whether or not the retrieved
      document had a `"score"` field; every other key reads as in the retrieved document,
      and the keys keep their order. */
  lemma MergedLookup(doc: Doc, score: real, key: string, default: string)
    ensures var m := Merged(doc, score);
      |m| == (if HasKey(doc, "score") then |doc| else |doc| + 1)
      && (forall i :: 0 <= i < |doc| ==> m[i].0 == doc[i].0)
      && Get(m, "score", Text(default)) == Score(score)
      && (key != "score" ==> Get(m, key, Text(default)) == Text(Get(doc, key, default)))
  {
    RescoredLookup(doc, score, key, default);
    RescoredLookup(doc, score, "score", default);
    if !HasKey(doc, "score") {
      RescoredKeys(doc, score, "score");
      GetAfterMissingKey(Rescored(doc, score), [("score", Score(score))], "score", Text(default));
      if key != "score" {
        RescoredKeys(doc, score, key);
        if !HasKey(doc, key) {
          GetAfterMissingKey(Rescored(doc, score), [("score", Score(score))], key, Text(default));
        } else {
          GetPrefix(Rescored(doc, score), [("score", Score(score))], key, Text(default));
        }
      }
    } else if key != "score" {
      assert Merged(doc, score) == Rescored(doc, score);
    }
  }

  lemma {:induction false} GetPrefix<V>(d: seq<(string, V)>, e: seq<(string, V)>, key: string, default: V)
    requires HasKey(d, key)
    ensures Get(d + e, key, default) == Get(d, key, default)
  {
    if d[0].0 != key {
      assert (d + e)[1..] == d[1..] + e;
      var i :| 0 <= i < |d| && d[i].0 == key;
      assert d[1..][i - 1].0 == key;
      GetPrefix(d[1..], e, key, default);
    }
  }
}
