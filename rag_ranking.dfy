/** The ranking step of `retrieve_context_multi_source`:
    `sorted(results, key=score, reverse=True)[:5]`, a stable sort in
    descending score order cut to the first five. */
module RagRanking {
  import opened Chunks

  /** One search result after the `$project` stage. */
  datatype Hit = Hit(content: string, metadata: Metadata, score: int)

  const TopK: nat := 5

  predicate Descending(s: seq<Hit>) {
    forall i, j :: 0 <= i < j < |s| ==> s[i].score >= s[j].score
  }

  /** Puts `x` after every element scoring at least as much: equal scores
      keep their arrival order. */
  function Insert(x: Hit, t: seq<Hit>): (r: seq<Hit>)
    ensures |r| == |t| + 1
  {
    if t == [] then [x]
    else if t[0].score >= x.score then [t[0]] + Insert(x, t[1..])
    else [x] + t
  }

  /** `sorted(hits, key=score, reverse=True)`, as an insertion sort. */
  function SortDesc(s: seq<Hit>): (r: seq<Hit>)
    ensures |r| == |s|
  {
    if s == [] then [] else Insert(s[|s| - 1], SortDesc(s[..|s| - 1]))
  }

  /** `sorted(...)[:5]`. */
  function Top(s: seq<Hit>): (r: seq<Hit>)
    ensures |r| == if |s| < TopK then |s| else TopK
  {
    var sorted := SortDesc(s);
    if |sorted| <= TopK then sorted else sorted[..TopK]
  }

  /** The hits with score `v`, in their order: the reference for stability. */
  function WithScore(s: seq<Hit>, v: int): seq<Hit> {
    if s == [] then [] else (if s[0].score == v then [s[0]] else []) + WithScore(s[1..], v)
  }

  lemma {:induction false} InsertMultiset(x: Hit, t: seq<Hit>)
    ensures multiset(Insert(x, t)) == multiset(t) + multiset{x}
    decreases |t|
  {
    if t != [] && t[0].score >= x.score {
      InsertMultiset(x, t[1..]);
      assert t == [t[0]] + t[1..];
    }
  }

  /** Inserting a hit under a bound keeps every hit under it. */
  lemma {:induction false} InsertBounded(x: Hit, t: seq<Hit>, bound: int)
    requires x.score <= bound
    requires forall i :: 0 <= i < |t| ==> t[i].score <= bound
    ensures forall i :: 0 <= i < |Insert(x, t)| ==> Insert(x, t)[i].score <= bound
    decreases |t|
  {
    if t != [] && t[0].score >= x.score {
      InsertBounded(x, t[1..], bound);
      assert Insert(x, t) == [t[0]] + Insert(x, t[1..]);
    }
  }

  lemma {:induction false} InsertDescending(x: Hit, t: seq<Hit>)
    requires Descending(t)
    ensures Descending(Insert(x, t))
    decreases |t|
  {
    if t != [] && t[0].score >= x.score {
      var rest := t[1..];
      assert Descending(rest);
      InsertDescending(x, rest);
      InsertBounded(x, rest, t[0].score);
      assert Insert(x, t) == [t[0]] + Insert(x, rest);
    }
  }

  lemma {:induction false} WithScoreAppend(a: seq<Hit>, b: seq<Hit>, v: int)
    ensures WithScore(a + b, v) == WithScore(a, v) + WithScore(b, v)
    decreases |a|
  {
    if a == [] {
      assert a + b == b;
    } else {
      var head := if a[0].score == v then [a[0]] else [];
      assert (a + b)[0] == a[0] && (a + b)[1..] == a[1..] + b;
      assert WithScore(a + b, v) == head + WithScore(a[1..] + b, v);
      WithScoreAppend(a[1..], b, v);
      assert WithScore(a, v) == head + WithScore(a[1..], v);
    }
  }

  lemma {:induction false} WithScoreNone(t: seq<Hit>, v: int)
    requires forall i :: 0 <= i < |t| ==> t[i].score != v
    ensures WithScore(t, v) == []
    decreases |t|
  {
    if t != [] {
      WithScoreNone(t[1..], v);
    }
  }

  /** A descending list whose head scores below `v` has no hit of score `v`. */
  lemma BelowNone(t: seq<Hit>, v: int)
    requires Descending(t) && t != [] && t[0].score < v
    ensures WithScore(t, v) == []
  {
    forall i | 0 <= i < |t| ensures t[i].score != v {
      assert i == 0 || t[0].score >= t[i].score;
    }
    WithScoreNone(t, v);
  }

  lemma WithScoreCons(h: Hit, t: seq<Hit>, v: int)
    ensures WithScore([h] + t, v) == (if h.score == v then [h] else []) + WithScore(t, v)
  {
    assert ([h] + t)[0] == h && ([h] + t)[1..] == t;
  }

  lemma DescendingTail(t: seq<Hit>)
    requires Descending(t) && t != []
    ensures Descending(t[1..])
  {
  }

  /** Inserting `x` into a sorted list puts it after every hit of the same score. */
  lemma {:induction false} InsertStable(x: Hit, t: seq<Hit>, v: int)
    requires Descending(t)
    ensures WithScore(Insert(x, t), v) == WithScore(t, v) + (if x.score == v then [x] else [])
    decreases |t|
  {
    var own := if x.score == v then [x] else [];
    if t == [] {
      WithScoreCons(x, [], v);
    } else if t[0].score >= x.score {
      var head := if t[0].score == v then [t[0]] else [];
      DescendingTail(t);
      InsertStable(x, t[1..], v);
      assert Insert(x, t) == [t[0]] + Insert(x, t[1..]);
      WithScoreCons(t[0], Insert(x, t[1..]), v);
      WithScoreCons(t[0], t[1..], v);
      assert t == [t[0]] + t[1..];
      assert WithScore(Insert(x, t), v) == head + (WithScore(t[1..], v) + own);
      assert WithScore(t, v) == head + WithScore(t[1..], v);
    } else {
      if x.score == v {
        BelowNone(t, v);
      }
      assert Insert(x, t) == [x] + t;
      WithScoreCons(x, t, v);
    }
  }

  /** The sort yields a descending list. */
  lemma {:induction false} SortDescending(s: seq<Hit>)
    ensures Descending(SortDesc(s))
  {
    if s != [] {
      SortDescending(s[..|s| - 1]);
      InsertDescending(s[|s| - 1], SortDesc(s[..|s| - 1]));
    }
  }

  /** The sort neither loses nor invents a hit. */
  lemma {:induction false} SortPermutation(s: seq<Hit>)
    ensures multiset(SortDesc(s)) == multiset(s)
  {
    if s != [] {
      var init := s[..|s| - 1];
      var last := s[|s| - 1];
      SortPermutation(init);
      InsertMultiset(last, SortDesc(init));
      assert s == init + [last];
      assert multiset(s) == multiset(init) + multiset{last};
    }
  }

  /** The sort is stable: hits of equal score keep their recall order. */
  lemma {:induction false} SortStable(s: seq<Hit>, v: int)
    ensures WithScore(SortDesc(s), v) == WithScore(s, v)
  {
    if s != [] {
      var init := s[..|s| - 1];
      var last := s[|s| - 1];
      SortStable(init, v);
      SortDescending(init);
      InsertStable(last, SortDesc(init), v);
      assert s == init + [last];
      WithScoreAppend(init, [last], v);
    }
  }

  /** The top results are the first hits of the sorted list, so they are
      in descending order and drawn from the hits. */
  lemma TopSpec(s: seq<Hit>)
    ensures Top(s) <= SortDesc(s)
    ensures Descending(Top(s))
    ensures multiset(Top(s)) <= multiset(s)
  {
    var sorted := SortDesc(s);
    SortDescending(s);
    SortPermutation(s);
    var top := Top(s);
    assert sorted == top + sorted[|top|..];
    assert multiset(sorted) == multiset(top) + multiset(sorted[|top|..]);
  }

  /** No hit left out of the top results scores more than any hit kept. */
  lemma TopHighest(s: seq<Hit>, h: Hit)
    requires h in multiset(s) - multiset(Top(s))
    ensures forall i :: 0 <= i < |Top(s)| ==> h.score <= Top(s)[i].score
  {
    var sorted := SortDesc(s);
    SortDescending(s);
    SortPermutation(s);
    var top := Top(s);
    var rest := sorted[|top|..];
    assert sorted == top + rest;
    assert multiset(sorted) == multiset(top) + multiset(rest);
    assert h in multiset(rest);
    var j :| 0 <= j < |rest| && rest[j] == h;
    assert sorted[|top| + j] == h;
  }
}
