/** Python's `list.sort(key=..., reverse=True)` on a score that is a ratio,
    and the slice `results[:top_k]`: the sort is stable, so records with
    equal scores keep the order they had. */
module Ranking {
  import opened Ratios

  /** Non-increasing by score. */
  predicate Descending<T>(s: seq<T>, key: T -> Ratio)
  {
    forall i, j :: 0 <= i < j < |s| ==> Le(key(s[j]), key(s[i]))
  }

  /** The records whose score equals `k`, in order. */
  function WithScore<T>(s: seq<T>, key: T -> Ratio, k: Ratio): seq<T>
  {
    if |s| == 0 then [] else (if Same(key(s[0]), k) then [s[0]] else []) + WithScore(s[1..], key, k)
  }

  lemma {:induction false} WithScoreConcat<T>(a: seq<T>, b: seq<T>, key: T -> Ratio, k: Ratio)
    ensures WithScore(a + b, key, k) == WithScore(a, key, k) + WithScore(b, key, k)
  {
    if |a| > 0 {
      assert (a + b)[1..] == a[1..] + b;
      WithScoreConcat(a[1..], b, key, k);
    } else {
      assert a + b == b;
    }
  }

  lemma {:induction false} WithScoreAbsent<T>(s: seq<T>, key: T -> Ratio, k: Ratio)
    requires forall i :: 0 <= i < |s| ==> !Same(key(s[i]), k)
    ensures WithScore(s, key, k) == []
  {
    if |s| > 0 { WithScoreAbsent(s[1..], key, k); }
  }

  /** A prefix of a list keeps, for every score, a prefix of that score's records. */
  lemma PrefixWithScore<T>(s: seq<T>, n: nat, key: T -> Ratio, k: Ratio)
    requires n <= |s|
    ensures var w := WithScore(s[..n], key, k);
      |w| <= |WithScore(s, key, k)| && w == WithScore(s, key, k)[..|w|]
  {
    assert s == s[..n] + s[n..];
    WithScoreConcat(s[..n], s[n..], key, k);
  }

  /** Puts `x` after every record whose score is not below its own. */
  function InsertDesc<T>(x: T, s: seq<T>, key: T -> Ratio): seq<T>
  {
    if |s| == 0 then [x]
    else if !Le(key(x), key(s[0])) then [x] + s
    else [s[0]] + InsertDesc(x, s[1..], key)
  }

  lemma {:induction false} InsertDescMultiset<T>(x: T, s: seq<T>, key: T -> Ratio)
    ensures multiset(InsertDesc(x, s, key)) == multiset(s) + multiset{x}
  {
    if |s| > 0 && Le(key(x), key(s[0])) {
      InsertDescMultiset(x, s[1..], key);
      assert s == [s[0]] + s[1..];
    }
  }

  /** A score above the head of a descending list is above all of it. */
  lemma ScoreAboveAll<T>(x: T, s: seq<T>, key: T -> Ratio)
    requires Descending(s, key) && |s| > 0 && !Le(key(x), key(s[0]))
    ensures forall j :: 0 <= j < |s| ==> !Le(key(x), key(s[j]))
  {
    forall j | 0 <= j < |s| ensures !Le(key(x), key(s[j])) {
      if j > 0 && Le(key(x), key(s[j])) {
        LeTransitive(key(x), key(s[j]), key(s[0]));
      }
    }
  }

  lemma {:induction false} InsertDescSorted<T>(x: T, s: seq<T>, key: T -> Ratio)
    requires Descending(s, key)
    ensures Descending(InsertDesc(x, s, key), key)
  {
    if |s| > 0 {
      if !Le(key(x), key(s[0])) {
        ScoreAboveAll(x, s, key);
        forall j | 0 <= j < |s| ensures Le(key(s[j]), key(x)) { LeTotal(key(s[j]), key(x)); }
      } else {
        var tail := InsertDesc(x, s[1..], key);
        InsertDescSorted(x, s[1..], key);
        InsertDescMultiset(x, s[1..], key);
        forall j | 0 <= j < |tail| ensures Le(key(tail[j]), key(s[0])) {
          assert tail[j] in multiset(tail);
          if tail[j] != x {
            assert tail[j] in multiset(s[1..]);
            var k :| 0 <= k < |s[1..]| && s[1..][k] == tail[j];
            assert s[k + 1] == tail[j];
          }
        }
      }
    }
  }

  /** No record of a descending list below `x` has the score of `x`. */
  lemma NoneWithScoreBelow<T>(x: T, s: seq<T>, key: T -> Ratio, k: Ratio)
    requires Descending(s, key) && |s| > 0 && !Le(key(x), key(s[0])) && Same(key(x), k)
    ensures WithScore(s, key, k) == []
  {
    ScoreAboveAll(x, s, key);
    forall j | 0 <= j < |s| ensures !Same(key(s[j]), k) {
      if Same(key(s[j]), k) { AboveSameIsNotSame(key(x), key(s[j]), k); }
    }
    WithScoreAbsent(s, key, k);
  }

  /** The records with score `k` of a list with a head: the head, if it has
      that score, then those of the rest. */
  lemma WithScoreCons<T>(h: T, t: seq<T>, key: T -> Ratio, k: Ratio)
    ensures WithScore([h] + t, key, k) == (if Same(key(h), k) then [h] else []) + WithScore(t, key, k)
  {
    assert ([h] + t)[0] == h && ([h] + t)[1..] == t;
  }

  lemma DescendingTail<T>(s: seq<T>, key: T -> Ratio)
    requires Descending(s, key) && |s| > 0
    ensures Descending(s[1..], key)
  {
    forall i, j | 0 <= i < j < |s| - 1 ensures Le(key(s[1..][j]), key(s[1..][i])) {
      assert s[1..][j] == s[j + 1] && s[1..][i] == s[i + 1];
    }
  }

  /** The inserted record comes after every record with its score. */
  lemma {:induction false} InsertDescWithScore<T>(x: T, s: seq<T>, key: T -> Ratio, k: Ratio)
    requires Descending(s, key)
    ensures WithScore(InsertDesc(x, s, key), key, k) == WithScore(s, key, k) + (if Same(key(x), k) then [x] else [])
  {
    var mine: seq<T> := if Same(key(x), k) then [x] else [];
    if |s| == 0 {
      assert InsertDesc(x, s, key) == [x] + s;
      WithScoreCons(x, s, key, k);
    } else if !Le(key(x), key(s[0])) {
      assert InsertDesc(x, s, key) == [x] + s;
      WithScoreCons(x, s, key, k);
      if Same(key(x), k) {
        NoneWithScoreBelow(x, s, key, k);
      }
    } else {
      var rest := InsertDesc(x, s[1..], key);
      assert InsertDesc(x, s, key) == [s[0]] + rest;
      DescendingTail(s, key);
      InsertDescWithScore(x, s[1..], key, k);
      WithScoreCons(s[0], rest, key, k);
      WithScoreCons(s[0], s[1..], key, k);
      assert [s[0]] + s[1..] == s;
    }
  }

  /** One step of the sort: inserting the last record into the sorted
      prefix keeps the order, the records, and each score's own order. */
  lemma SortStep<T>(s: seq<T>, sorted: seq<T>, key: T -> Ratio)
    requires |s| > 0 && Descending(sorted, key)
    requires multiset(sorted) == multiset(s[..|s| - 1])
    requires forall k :: WithScore(sorted, key, k) == WithScore(s[..|s| - 1], key, k)
    ensures Descending(InsertDesc(s[|s| - 1], sorted, key), key)
    ensures multiset(InsertDesc(s[|s| - 1], sorted, key)) == multiset(s)
    ensures forall k :: WithScore(InsertDesc(s[|s| - 1], sorted, key), key, k) == WithScore(s, key, k)
  {
    var init, last := s[..|s| - 1], s[|s| - 1];
    InsertDescSorted(last, sorted, key);
    InsertDescMultiset(last, sorted, key);
    assert s == init + [last];
    forall k ensures WithScore(InsertDesc(last, sorted, key), key, k) == WithScore(s, key, k) {
      InsertDescWithScore(last, sorted, key, k);
      WithScoreConcat(init, [last], key, k);
    }
  }

  /** `results.sort(key=..., reverse=True)`: a stable sort, highest score first. */
  function SortDesc<T(==)>(s: seq<T>, key: T -> Ratio): (r: seq<T>)
    ensures Descending(r, key)
    ensures multiset(r) == multiset(s)
    ensures forall k :: WithScore(r, key, k) == WithScore(s, key, k)
  {
    if |s| == 0 then []
    else
      var sorted := SortDesc(s[..|s| - 1], key);
      SortStep(s, sorted, key);
      InsertDesc(s[|s| - 1], sorted, key)
  }

  /** A record whose score is not above any in the list goes to the end. */
  lemma {:induction false} InsertDescLast<T>(x: T, s: seq<T>, key: T -> Ratio)
    requires forall j :: 0 <= j < |s| ==> Le(key(x), key(s[j]))
    ensures InsertDesc(x, s, key) == s + [x]
  {
    if |s| > 0 {
      InsertDescLast(x, s[1..], key);
      assert s == [s[0]] + s[1..];
    }
  }

  /** When every record has the same score the stable sort changes nothing. */
  lemma {:induction false} SortDescOfTies<T>(s: seq<T>, key: T -> Ratio, k: Ratio)
    requires forall i :: 0 <= i < |s| ==> key(s[i]) == k
    ensures SortDesc(s, key) == s
  {
    if |s| > 0 {
      var init := s[..|s| - 1];
      SortDescOfTies(init, key, k);
      InsertDescLast(s[|s| - 1], init, key);
      assert init + [s[|s| - 1]] == s;
    }
  }

  /** Python's `s[:k]`, a negative `k` counting from the end. */
  function Take<T>(s: seq<T>, k: int): (r: seq<T>)
    ensures k >= 0 ==> |r| == if k <= |s| then k else |s|
    ensures k < 0 ==> |r| == if -k <= |s| then |s| + k else 0
    ensures r == s[..|r|]
  {
    if k >= |s| then s
    else if k >= 0 then s[..k]
    else if -k <= |s| then s[..|s| + k]
    else []
  }
}
