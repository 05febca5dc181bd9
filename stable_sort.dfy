/**
 * The `sort((a, b) => b.score - a.score)` step of the scoring engine
 * (src/lib/scoring.ts:36). JavaScript's `Array.prototype.sort` is stable, so
 * the result is the stable sort by descending score. The model sorts by
 * insertion and proves that every stable descending sort gives that same
 * sequence, so the choice of algorithm does not matter.
 */
module StableSort {
  import opened QuizTypes

  /** Scores never increase along `s`. */
  predicate SortedDesc(s: seq<StateScore>)
  {
    forall i, j :: 0 <= i < j < |s| ==> s[i].score >= s[j].score
  }

  /** The entries of `s` whose score is `v`, in their order in `s`. */
  function WithScore(s: seq<StateScore>, v: int): seq<StateScore>
  {
    if s == [] then []
    else (if s[0].score == v then [s[0]] else []) + WithScore(s[1..], v)
  }

  /** `output` keeps, for every score, the relative order that `input` had. */
  ghost predicate Stable(input: seq<StateScore>, output: seq<StateScore>)
  {
    forall v :: WithScore(output, v) == WithScore(input, v)
  }

  /** Places `x` in front of the first entry whose score is not above its own. */
  function Insert(x: StateScore, s: seq<StateScore>): seq<StateScore>
  {
    if s == [] || s[0].score <= x.score then [x] + s
    else [s[0]] + Insert(x, s[1..])
  }

  /** Stable insertion sort by descending score. */
  function SortByScoreDesc(s: seq<StateScore>): (r: seq<StateScore>)
    ensures |r| == |s|
    ensures SortedDesc(r)
  {
    if s == [] then []
    else
      var rest := SortByScoreDesc(s[1..]);
      InsertKeepsOrder(s[0], rest);
      Insert(s[0], rest)
  }

  /** The sort returns a stable permutation of its input. */
  lemma {:induction false} SortByScoreDescSpec(s: seq<StateScore>)
    ensures multiset(SortByScoreDesc(s)) == multiset(s)
    ensures Stable(s, SortByScoreDesc(s))
  {
    if s != [] {
      var rest := SortByScoreDesc(s[1..]);
      SortByScoreDescSpec(s[1..]);
      InsertPermutes(s[0], rest);
      assert s == [s[0]] + s[1..];
      forall v ensures WithScore(SortByScoreDesc(s), v) == WithScore(s, v) {
        InsertFilter(s[0], rest, v);
      }
    }
  }

  lemma {:induction false} InsertPermutes(x: StateScore, s: seq<StateScore>)
    ensures |Insert(x, s)| == |s| + 1
    ensures multiset(Insert(x, s)) == multiset{x} + multiset(s)
  {
    if s != [] && s[0].score > x.score {
      InsertPermutes(x, s[1..]);
      assert s == [s[0]] + s[1..];
    }
  }

  lemma {:induction false} InsertKeepsOrder(x: StateScore, s: seq<StateScore>)
    requires SortedDesc(s)
    ensures SortedDesc(Insert(x, s))
    ensures |Insert(x, s)| == |s| + 1
  {
    InsertPermutes(x, s);
    if s != [] && s[0].score > x.score {
      var t := Insert(x, s[1..]);
      InsertKeepsOrder(x, s[1..]);
      assert t[0] == x || t[0] == s[1];
      ConsSorted(s[0], t);
      assert Insert(x, s) == [s[0]] + t;
    } else {
      ConsSorted(x, s);
    }
  }

  lemma ConsSorted(a: StateScore, t: seq<StateScore>)
    requires SortedDesc(t)
    requires t == [] || t[0].score <= a.score
    ensures SortedDesc([a] + t)
  {
    var r := [a] + t;
    forall i, j | 0 <= i < j < |r| ensures r[i].score >= r[j].score {
      if i > 0 {
        assert r[i] == t[i - 1] && r[j] == t[j - 1];
      } else {
        assert r[j] == t[j - 1] && t[j - 1].score <= t[0].score;
      }
    }
  }

  lemma {:induction false} InsertFilter(x: StateScore, s: seq<StateScore>, v: int)
    ensures WithScore(Insert(x, s), v) == (if x.score == v then [x] else []) + WithScore(s, v)
  {
    var t := Insert(x, s);
    assert WithScore(t, v) == (if t[0].score == v then [t[0]] else []) + WithScore(t[1..], v);
    if s == [] || s[0].score <= x.score {
      assert t[0] == x && t[1..] == s;
    } else {
      assert t[0] == s[0] && t[1..] == Insert(x, s[1..]);
      InsertFilter(x, s[1..], v);
      assert WithScore(s, v) == (if s[0].score == v then [s[0]] else []) + WithScore(s[1..], v);
      if x.score == v {
        assert s[0].score != v;
      } else if s[0].score == v {
        assert WithScore(t, v) == [s[0]] + WithScore(s[1..], v);
      } else {
        assert WithScore(t, v) == WithScore(s[1..], v);
      }
    }
  }

  lemma {:induction false} WithScoreMembers(s: seq<StateScore>, v: int)
    ensures forall x :: x in WithScore(s, v) <==> x in s && x.score == v
  {
    if s != [] {
      WithScoreMembers(s[1..], v);
      assert s == [s[0]] + s[1..];
    }
  }

  /** Two sequences sorted by descending score with the same per-score order are equal. */
  lemma {:induction false} SortedByFiltersUnique(a: seq<StateScore>, b: seq<StateScore>)
    requires SortedDesc(a) && SortedDesc(b)
    requires forall v :: WithScore(a, v) == WithScore(b, v)
    ensures a == b
  {
    if a == [] || b == [] {
      if a != b {
        var c := if a == [] then b else a;
        WithScoreMembers(c, c[0].score);
        assert false;
      }
    } else {
      var va, vb := a[0].score, b[0].score;
      WithScoreMembers(a, va);
      WithScoreMembers(b, va);
      WithScoreMembers(a, vb);
      WithScoreMembers(b, vb);
      assert a[0] in WithScore(a, va);
      assert b[0] in WithScore(b, vb);
      assert va == vb;
      assert WithScore(a, va) == [a[0]] + WithScore(a[1..], va);
      assert WithScore(b, va) == [b[0]] + WithScore(b[1..], va);
      assert a[0] == WithScore(a, va)[0];
      forall v ensures WithScore(a[1..], v) == WithScore(b[1..], v) {
        if v == va {
          assert WithScore(a[1..], v) == WithScore(a, v)[1..];
        } else {
          assert WithScore(a[1..], v) == WithScore(a, v);
          assert WithScore(b[1..], v) == WithScore(b, v);
        }
      }
      SortedByFiltersUnique(a[1..], b[1..]);
      assert a == [a[0]] + a[1..] && b == [b[0]] + b[1..];
    }
  }

  /**
   * Any stable sort by descending score of `s` (sorted, and keeping each
   * score's order) is `SortByScoreDesc(s)`.
   */
  lemma StableSortIsUnique(s: seq<StateScore>, t: seq<StateScore>)
    requires SortedDesc(t) && Stable(s, t)
    ensures t == SortByScoreDesc(s)
  {
    SortByScoreDescSpec(s);
    SortedByFiltersUnique(t, SortByScoreDesc(s));
  }
}
