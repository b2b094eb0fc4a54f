/** Python's ordering of strings (code point by code point, a proper prefix
    first) and `sorted(list(set(...)))`, the deterministic rendering of a
    set of labels. */
module Ordering {

  predicate Less(a: string, b: string)
    decreases |a|
  {
    if |a| == 0 then |b| > 0
    else |b| > 0 && (a[0] < b[0] || (a[0] == b[0] && Less(a[1..], b[1..])))
  }

  lemma {:induction false} LessIrreflexive(a: string)
    ensures !Less(a, a)
    decreases |a|
  {
    if |a| > 0 { LessIrreflexive(a[1..]); }
  }

  lemma {:induction false} LessTransitive(a: string, b: string, c: string)
    requires Less(a, b) && Less(b, c)
    ensures Less(a, c)
    decreases |a|
  {
    if |a| > 0 && a[0] == b[0] && b[0] == c[0] {
      LessTransitive(a[1..], b[1..], c[1..]);
    }
  }

  lemma {:induction false} LessTotal(a: string, b: string)
    requires a != b
    ensures Less(a, b) || Less(b, a)
    decreases |a|
  {
    if |a| > 0 && |b| > 0 && a[0] == b[0] {
      assert a == [a[0]] + a[1..] && b == [b[0]] + b[1..];
      LessTotal(a[1..], b[1..]);
    }
  }

  lemma LessAsymmetric(a: string, b: string)
    requires Less(a, b)
    ensures !Less(b, a)
  {
    if Less(b, a) {
      LessTransitive(a, b, a);
      LessIrreflexive(a);
    }
  }

  /** `set(xs)` */
  function Elems(xs: seq<string>): set<string>
  {
    set x | x in xs
  }

  lemma ElemsConcat(a: seq<string>, b: seq<string>)
    ensures Elems(a + b) == Elems(a) + Elems(b)
  {
    assert forall x :: x in a + b <==> x in a || x in b;
  }

  /** Ascending without repetition, as `sorted` renders a set. */
  predicate StrictlySorted(s: seq<string>)
  {
    forall i, j :: 0 <= i < j < |s| ==> Less(s[i], s[j])
  }

  /** A head below every member of a strictly sorted tail keeps it strictly sorted. */
  lemma PrependBelow(h: string, t: seq<string>)
    requires StrictlySorted(t)
    requires forall y :: y in Elems(t) ==> Less(h, y)
    ensures StrictlySorted([h] + t)
  {
    forall i, j | 0 <= i < j < |[h] + t| ensures Less(([h] + t)[i], ([h] + t)[j]) {
      assert t[j - 1] in Elems(t);
    }
  }

  /** Every member of a strictly sorted list but the first lies above it. */
  lemma AboveHead(s: seq<string>)
    requires |s| > 0 && StrictlySorted(s)
    ensures forall y :: y in Elems(s[1..]) ==> Less(s[0], y)
  {
    forall y | y in Elems(s[1..]) ensures Less(s[0], y) {
      var k :| 0 <= k < |s[1..]| && s[1..][k] == y;
      assert s[k + 1] == y;
    }
  }

  /** Puts `x` into its place in a strictly sorted list, unless it is already there. */
  function Insert(x: string, s: seq<string>): (r: seq<string>)
    requires StrictlySorted(s)
    ensures StrictlySorted(r)
    ensures Elems(r) == Elems(s) + {x}
  {
    if |s| == 0 then [x]
    else if x == s[0] then s
    else
      AboveHead(s);
      assert Elems(s) == {s[0]} + Elems(s[1..]) by { assert s == [s[0]] + s[1..]; }
      if Less(x, s[0]) then
        assert forall y :: y in Elems(s) ==> Less(x, y) by {
          forall y | y in Elems(s) ensures Less(x, y) {
            if y != s[0] { LessTransitive(x, s[0], y); }
          }
        }
        PrependBelow(x, s);
        assert Elems([x] + s) == {x} + Elems(s) by { assert forall y :: y in [x] + s <==> y == x || y in s; }
        [x] + s
      else
        LessTotal(x, s[0]);
        var tail := Insert(x, s[1..]);
        PrependBelow(s[0], tail);
        assert Elems([s[0]] + tail) == {s[0]} + Elems(tail) by { assert forall y :: y in [s[0]] + tail <==> y == s[0] || y in tail; }
        [s[0]] + tail
  }

  /** `sorted(list(set(xs)))` */
  function SortedSet(xs: seq<string>): (r: seq<string>)
    ensures StrictlySorted(r)
    ensures Elems(r) == Elems(xs)
  {
    if |xs| == 0 then []
    else
      assert Elems(xs) == {xs[0]} + Elems(xs[1..]) by { assert xs == [xs[0]] + xs[1..]; }
      Insert(xs[0], SortedSet(xs[1..]))
  }

  /** A set has exactly one strictly sorted rendering. */
  lemma {:induction false} SortedUnique(a: seq<string>, b: seq<string>)
    requires StrictlySorted(a) && StrictlySorted(b)
    requires Elems(a) == Elems(b)
    ensures a == b
    decreases |a|
  {
    if |a| == 0 {
      assert Elems(b) == {};
      StrictlySortedCard(b);
    } else {
      assert a[0] in Elems(b);
      assert b[0] in Elems(a);
      if a[0] != b[0] {
        var i :| 0 <= i < |a| && a[i] == b[0];
        var j :| 0 <= j < |b| && b[j] == a[0];
        assert Less(a[0], b[0]);
        assert Less(b[0], a[0]);
        LessAsymmetric(a[0], b[0]);
      }
      assert a[0] !in Elems(a[1..]) by {
        if a[0] in Elems(a[1..]) {
          var i :| 0 <= i < |a[1..]| && a[1..][i] == a[0];
          assert Less(a[0], a[i + 1]);
          LessIrreflexive(a[0]);
        }
      }
      assert b[0] !in Elems(b[1..]) by {
        if b[0] in Elems(b[1..]) {
          var i :| 0 <= i < |b[1..]| && b[1..][i] == b[0];
          assert Less(b[0], b[i + 1]);
          LessIrreflexive(b[0]);
        }
      }
      assert Elems(a) == {a[0]} + Elems(a[1..]) by { assert a == [a[0]] + a[1..]; }
      assert Elems(b) == {b[0]} + Elems(b[1..]) by { assert b == [b[0]] + b[1..]; }
      SortedUnique(a[1..], b[1..]);
      assert a == [a[0]] + a[1..] && b == [b[0]] + b[1..];
    }
  }

  /** Sorting what is already a sorted set changes nothing. */
  lemma SortedSetOfSorted(s: seq<string>)
    requires StrictlySorted(s)
    ensures SortedSet(s) == s
  {
    SortedUnique(SortedSet(s), s);
  }

  /** A strictly sorted list has no repetitions: it is as long as its set is large. */
  lemma {:induction false} StrictlySortedCard(s: seq<string>)
    requires StrictlySorted(s)
    ensures |Elems(s)| == |s|
  {
    if |s| > 0 {
      assert s[0] !in Elems(s[1..]) by {
        if s[0] in Elems(s[1..]) {
          var i :| 0 <= i < |s[1..]| && s[1..][i] == s[0];
          assert Less(s[0], s[i + 1]);
          LessIrreflexive(s[0]);
        }
      }
      assert Elems(s) == {s[0]} + Elems(s[1..]) by { assert s == [s[0]] + s[1..]; }
      StrictlySortedCard(s[1..]);
    }
  }

  /** `sorted(s)` for a set: its members in ascending order, each once. */
  method SortSet(s: set<string>) returns (r: seq<string>)
    ensures StrictlySorted(r) && Elems(r) == s && |r| == |s|
  {
    var rest := s;
    r := [];
    while rest != {}
      invariant StrictlySorted(r)
      invariant Elems(r) + rest == s
      invariant Elems(r) * rest == {}
      decreases rest
    {
      var x :| x in rest;
      r := Insert(x, r);
      rest := rest - {x};
    }
    StrictlySortedCard(r);
  }
}
