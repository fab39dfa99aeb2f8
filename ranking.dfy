/**
 * The ranking step both matching engines share:
 * `matches.sort(key=lambda x: x.get("match_score", 0), reverse=True)`
 * followed by the slice `matches[:limit]`.
 *
 * Python's sort is stable, also with `reverse=True`, so the sorted list is
 * the unique one that is ordered by descending score and keeps, for every
 * score, the original order of the matches that carry it. The model
 * computes it by stable insertion and proves those two facts.
 */
module Ranking {
  import opened Py

  /** `m.get("match_score", 0)`; the engines always store an int there. */
  function Score(m: Doc): int {
    if "match_score" in m && m["match_score"].JInt? then m["match_score"].i else 0
  }

  ghost predicate SortedDesc(s: seq<Doc>) {
    forall i, j :: 0 <= i < j < |s| ==> Score(s[i]) >= Score(s[j])
  }

  /** Puts `x` right after the leading matches scoring at least as much as `x`. */
  function Insert(x: Doc, s: seq<Doc>): (r: seq<Doc>)
    ensures |r| == |s| + 1
  {
    if s == [] || Score(s[0]) < Score(x) then [x] + s else [s[0]] + Insert(x, s[1..])
  }

  lemma {:induction false} InsertMultiset(x: Doc, s: seq<Doc>)
    ensures multiset(Insert(x, s)) == multiset(s) + multiset{x}
  {
    if s != [] && Score(s[0]) >= Score(x) {
      InsertMultiset(x, s[1..]);
      assert s == [s[0]] + s[1..];
    }
  }

  /** The stable descending sort, by insertion of each match in input order. */
  function SortDesc(s: seq<Doc>): (r: seq<Doc>)
    ensures |r| == |s|
  {
    if s == [] then [] else Insert(s[|s| - 1], SortDesc(s[..|s| - 1]))
  }

  /** Sorting neither drops nor duplicates a match. */
  lemma {:induction false} SortDescPermutes(s: seq<Doc>)
    ensures multiset(SortDesc(s)) == multiset(s)
  {
    if s != [] {
      SortDescPermutes(s[..|s| - 1]);
      InsertMultiset(s[|s| - 1], SortDesc(s[..|s| - 1]));
      assert s == s[..|s| - 1] + [s[|s| - 1]];
    }
  }

  /** The matches of score `k`, in order. */
  function WithScore(s: seq<Doc>, k: int): seq<Doc> {
    if s == [] then [] else (if Score(s[0]) == k then [s[0]] else []) + WithScore(s[1..], k)
  }

  lemma {:induction false} WithScoreAppend(a: seq<Doc>, b: seq<Doc>, k: int)
    ensures WithScore(a + b, k) == WithScore(a, k) + WithScore(b, k)
  {
    if a == [] {
      assert a + b == b;
    } else {
      var t := a + b;
      assert t[0] == a[0] && t[1..] == a[1..] + b;
      WithScoreAppend(a[1..], b, k);
      var head := if Score(a[0]) == k then [a[0]] else [];
      var rest, tail := WithScore(a[1..], k), WithScore(b, k);
      assert WithScore(t, k) == head + (rest + tail);
      assert WithScore(a, k) == head + rest;
      assert head + (rest + tail) == (head + rest) + tail;
    }
  }

  lemma {:induction false} WithScoreAbsent(s: seq<Doc>, k: int)
    requires forall i :: 0 <= i < |s| ==> Score(s[i]) != k
    ensures WithScore(s, k) == []
  {
    if s != [] {
      WithScoreAbsent(s[1..], k);
    }
  }

  /** A match scoring at least as much as a sorted list can go in front of it. */
  lemma ConsSorted(a: Doc, t: seq<Doc>)
    requires SortedDesc(t)
    requires forall i :: 0 <= i < |t| ==> Score(t[i]) <= Score(a)
    ensures SortedDesc([a] + t)
  {
    var r := [a] + t;
    forall i, j | 0 <= i < j < |r| ensures Score(r[i]) >= Score(r[j]) {
      assert r[j] == t[j - 1];
      if i > 0 {
        assert r[i] == t[i - 1];
      }
    }
  }

  /** Inserting keeps every score under a bound that `x` and all of `s` respect. */
  lemma {:induction false} InsertBounded(x: Doc, s: seq<Doc>, bound: int)
    requires Score(x) <= bound && forall i :: 0 <= i < |s| ==> Score(s[i]) <= bound
    ensures forall i :: 0 <= i < |Insert(x, s)| ==> Score(Insert(x, s)[i]) <= bound
  {
    if s != [] && Score(s[0]) >= Score(x) {
      InsertBounded(x, s[1..], bound);
      var t := Insert(x, s[1..]);
      assert Insert(x, s) == [s[0]] + t;
      forall i | 0 < i < |t| + 1 ensures Score(([s[0]] + t)[i]) <= bound {
        assert ([s[0]] + t)[i] == t[i - 1];
      }
    } else {
      forall i | 0 < i < |s| + 1 ensures Score(([x] + s)[i]) <= bound {
        assert ([x] + s)[i] == s[i - 1];
      }
    }
  }

  lemma {:induction false} InsertSorted(x: Doc, s: seq<Doc>)
    requires SortedDesc(s)
    ensures SortedDesc(Insert(x, s))
  {
    if s == [] || Score(s[0]) < Score(x) {
      ConsSorted(x, s);
    } else {
      SortedTail(s);
      InsertSorted(x, s[1..]);
      InsertBounded(x, s[1..], Score(s[0]));
      ConsSorted(s[0], Insert(x, s[1..]));
    }
  }

  /** Sorting orders the matches by descending score. */
  lemma {:induction false} SortDescSorted(s: seq<Doc>)
    ensures SortedDesc(SortDesc(s))
  {
    if s != [] {
      SortDescSorted(s[..|s| - 1]);
      InsertSorted(s[|s| - 1], SortDesc(s[..|s| - 1]));
    }
  }

  lemma SortedTail(s: seq<Doc>)
    requires s != [] && SortedDesc(s)
    ensures SortedDesc(s[1..])
    ensures forall i :: 0 <= i < |s| ==> Score(s[i]) <= Score(s[0])
  {
    forall i | 0 < i < |s|
      ensures Score(s[i]) <= Score(s[0])
    {
    }
  }

  lemma {:induction false} InsertStable(x: Doc, s: seq<Doc>, k: int)
    requires SortedDesc(s)
    ensures WithScore(Insert(x, s), k) == WithScore(s, k) + (if Score(x) == k then [x] else [])
  {
    if s == [] {
      assert [x][1..] == [];
    } else if Score(s[0]) < Score(x) {
      InsertStableFront(x, s, k);
    } else {
      SortedTail(s);
      InsertStable(x, s[1..], k);
      InsertStableStep(x, s, k);
    }
  }

  lemma InsertStableFront(x: Doc, s: seq<Doc>, k: int)
    requires SortedDesc(s) && s != [] && Score(s[0]) < Score(x)
    ensures WithScore(Insert(x, s), k) == WithScore(s, k) + (if Score(x) == k then [x] else [])
  {
    SortedTail(s);
    assert ([x] + s)[1..] == s;
    if Score(x) == k {
      WithScoreAbsent(s, k);
    }
  }

  lemma InsertStableStep(x: Doc, s: seq<Doc>, k: int)
    requires s != [] && Score(s[0]) >= Score(x)
    requires WithScore(Insert(x, s[1..]), k) == WithScore(s[1..], k) + (if Score(x) == k then [x] else [])
    ensures WithScore(Insert(x, s), k) == WithScore(s, k) + (if Score(x) == k then [x] else [])
  {
    var rest := Insert(x, s[1..]);
    var head: seq<Doc> := if Score(s[0]) == k then [s[0]] else [];
    var tail: seq<Doc> := if Score(x) == k then [x] else [];
    var t := [s[0]] + rest;
    assert Insert(x, s) == t;
    assert t != [] && t[0] == s[0] && t[1..] == rest;
    assert WithScore(t, k) == head + WithScore(rest, k);
    assert WithScore(s, k) == head + WithScore(s[1..], k);
    assert head + (WithScore(s[1..], k) + tail) == (head + WithScore(s[1..], k)) + tail;
  }

  /** Sorting is stable: the matches of each score keep their input order. */
  lemma {:induction false} SortDescStable(s: seq<Doc>, k: int)
    ensures WithScore(SortDesc(s), k) == WithScore(s, k)
  {
    if s != [] {
      var init, last := s[..|s| - 1], s[|s| - 1];
      SortDescStable(init, k);
      SortDescSorted(init);
      InsertStable(last, SortDesc(init), k);
      assert s == init + [last];
      WithScoreAppend(init, [last], k);
    }
  }

  lemma {:induction false} InsertAtEnd(x: Doc, s: seq<Doc>)
    requires forall i :: 0 <= i < |s| ==> Score(s[i]) >= Score(x)
    ensures Insert(x, s) == s + [x]
  {
    if s != [] {
      assert forall i :: 0 <= i < |s[1..]| ==> s[1..][i] == s[i + 1];
      InsertAtEnd(x, s[1..]);
      assert Insert(x, s) == [s[0]] + Insert(x, s[1..]);
      assert s == [s[0]] + s[1..];
    }
  }

  /** When every match scores the same, sorting leaves the input order alone. */
  lemma {:induction false} SortDescUniform(s: seq<Doc>, k: int)
    requires forall i :: 0 <= i < |s| ==> Score(s[i]) == k
    ensures SortDesc(s) == s
  {
    if s != [] {
      var init := s[..|s| - 1];
      SortDescUniform(init, k);
      InsertAtEnd(s[|s| - 1], init);
      assert init + [s[|s| - 1]] == s;
    }
  }

  /**
   * `sorted(...)[:n]`: at most `n` matches, a prefix of the stable sort,
   * ordered, each scoring at least as much as every match that was cut.
   */
  lemma TopRanked(s: seq<Doc>, n: nat)
    ensures var top, all := PyTake(SortDesc(s), n), SortDesc(s);
      && |top| <= n
      && top == all[..|top|]
      && SortedDesc(top)
      && (forall i, j :: 0 <= i < |top| <= j < |all| ==> Score(top[i]) >= Score(all[j]))
      && multiset(all) == multiset(s)
      && (forall k :: WithScore(all, k) == WithScore(s, k))
  {
    var all := SortDesc(s);
    var top := PyTake(all, n);
    SortDescSorted(s);
    SortDescPermutes(s);
    forall k ensures WithScore(all, k) == WithScore(s, k) {
      SortDescStable(s, k);
    }
    assert top == all[..|top|];
    forall i, j | 0 <= i < |top| <= j < |all|
      ensures Score(top[i]) >= Score(all[j])
    {
      assert top[i] == all[i];
    }
  }

  /** Python's slice `s[:n]`, including a negative `n`. */
  function PyTake<T>(s: seq<T>, n: int): (r: seq<T>)
    ensures r <= s
    ensures n >= 0 ==> |r| == if n <= |s| then n else |s|
    ensures n < 0 ==> |r| == if -n <= |s| then |s| + n else 0
  {
    if n >= 0 then (if n <= |s| then s[..n] else s)
    else (if -n <= |s| then s[..|s| + n] else [])
  }
}
