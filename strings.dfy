/** Python's string primitives as the labeling pipeline uses them: `strip`,
    `split(',')`, `sep.join`, `replace`, `lower`, the `in` substring test and
    the regular-expression class `\d`. Strings are sequences of code points. */
module Strings {

  datatype Option<+T> = None | Some(value: T)

  /** The characters Python's `str.isspace` accepts, which are the ones
      `str.strip()` removes and the regular-expression class `\s` matches. */
  predicate IsSpace(c: char)
  {
    ('\t' <= c <= '\r') || ('\U{1C}' <= c <= '\U{1F}') || c == ' '
    || c == '\U{85}' || c == '\U{A0}' || c == '\U{1680}'
    || ('\U{2000}' <= c <= '\U{200A}') || c == '\U{2028}' || c == '\U{2029}'
    || c == '\U{202F}' || c == '\U{205F}' || c == '\U{3000}'
  }

  /** A string with no whitespace at either end. */
  predicate Trimmed(s: string)
  {
    |s| == 0 || (!IsSpace(s[0]) && !IsSpace(s[|s| - 1]))
  }

  function TrimStart(s: string): (r: string)
    ensures |r| <= |s| && r == s[|s| - |r|..]
    ensures |r| == 0 || !IsSpace(r[0])
    ensures forall i :: 0 <= i < |s| - |r| ==> IsSpace(s[i])
  {
    if |s| > 0 && IsSpace(s[0]) then TrimStart(s[1..]) else s
  }

  function TrimEnd(s: string): (r: string)
    ensures |r| <= |s| && r == s[..|r|]
    ensures |r| == 0 || !IsSpace(r[|r| - 1])
    ensures forall i :: |r| <= i < |s| ==> IsSpace(s[i])
  {
    if |s| > 0 && IsSpace(s[|s| - 1]) then TrimEnd(s[..|s| - 1]) else s
  }

  /** `r` is `s` with the whitespace before position `i` and after `r` removed. */
  predicate InfixAmidSpaces(s: string, r: string, i: int)
  {
    0 <= i <= |s| - |r| && r == s[i..i + |r|]
    && (forall k :: 0 <= k < i ==> IsSpace(s[k]))
    && (forall k :: i + |r| <= k < |s| ==> IsSpace(s[k]))
  }

  /** `s.strip()`: the longest infix that neither starts nor ends with whitespace. */
  function Trim(s: string): (r: string)
    ensures Trimmed(r)
    ensures r == "" <==> forall i :: 0 <= i < |s| ==> IsSpace(s[i])
    ensures exists i :: InfixAmidSpaces(s, r, i)
  {
    var t := TrimStart(s);
    var r := TrimEnd(t);
    assert r == s[|s| - |t|..|s| - |t| + |r|];
    assert r != "" ==> !IsSpace(r[0]) by {
      if r != "" { assert r[0] == t[0]; }
    }
    InfixOfEnds(s, t, r);
    r
  }

  /** A whitespace-free end cut off each side leaves an infix amid whitespace. */
  lemma InfixOfEnds(s: string, t: string, r: string)
    requires |t| <= |s| && t == s[|s| - |t|..] && forall k :: 0 <= k < |s| - |t| ==> IsSpace(s[k])
    requires |r| <= |t| && r == t[..|r|] && forall k :: |r| <= k < |t| ==> IsSpace(t[k])
    ensures InfixAmidSpaces(s, r, |s| - |t|)
  {
    var i := |s| - |t|;
    forall k | i + |r| <= k < |s| ensures IsSpace(s[k]) {
      assert s[k] == t[k - i];
    }
  }

  lemma TrimKeepsAbsent(s: string, c: char)
    requires c !in s
    ensures c !in Trim(s)
  {
    var t := TrimStart(s);
    assert t == s[|s| - |t|..];
    assert c !in t;
    assert TrimEnd(t) == t[..|TrimEnd(t)|];
  }

  lemma TrimOfTrimmed(s: string)
    requires Trimmed(s)
    ensures Trim(s) == s
  {
  }

  /** Stripping a leading blank off a trimmed, non-empty label gives the label back. */
  lemma TrimIndented(s: string)
    requires s != "" && Trimmed(s)
    ensures Trim(" " + s) == s
  {
    assert (" " + s)[1..] == s;
  }

  /** `[Trim(p) for p in parts]` */
  function TrimAll(parts: seq<string>): (r: seq<string>)
    ensures |r| == |parts|
    ensures forall i :: 0 <= i < |r| ==> r[i] == Trim(parts[i])
  {
    if |parts| == 0 then [] else [Trim(parts[0])] + TrimAll(parts[1..])
  }

  /** `s.split(c)`: the pieces between the occurrences of `c`; always at least one. */
  function Split(s: string, c: char): (parts: seq<string>)
    ensures |parts| >= 1
    ensures forall i :: 0 <= i < |parts| ==> c !in parts[i]
  {
    if |s| == 0 then [""]
    else
      var rest := Split(s[1..], c);
      if s[0] == c then [""] + rest
      else [[s[0]] + rest[0]] + rest[1..]
  }

  /** A character absent from the text is absent from every piece. */
  lemma {:induction false} SplitKeepsAbsent(s: string, c: char, d: char)
    requires d !in s
    ensures forall i :: 0 <= i < |Split(s, c)| ==> d !in Split(s, c)[i]
    decreases |s|
  {
    if |s| > 0 {
      assert d !in s[1..] by { assert forall x :: x in s[1..] ==> x in s; }
      SplitKeepsAbsent(s[1..], c, d);
    }
  }

  lemma SplitNoSeparator(s: string, c: char)
    requires c !in s
    ensures Split(s, c) == [s]
  {
    if |s| > 0 {
      SplitNoSeparator(s[1..], c);
      assert [s[0]] + s[1..] == s;
    }
  }

  lemma {:induction false} SplitAtSeparator(a: string, c: char, b: string)
    requires c !in a
    ensures Split(a + [c] + b, c) == [a] + Split(b, c)
  {
    if |a| == 0 {
      assert (a + [c] + b)[1..] == b;
    } else {
      assert (a + [c] + b)[1..] == a[1..] + [c] + b;
      SplitAtSeparator(a[1..], c, b);
      assert [a[0]] + a[1..] == a;
    }
  }

  /** `sep.join(xs)` */
  function Join(xs: seq<string>, sep: string): string
  {
    if |xs| == 0 then "" else if |xs| == 1 then xs[0] else xs[0] + sep + Join(xs[1..], sep)
  }

  /** Splitting a join on a one-character separator that occurs in no element
      gives the elements back. */
  lemma {:induction false} SplitJoin(xs: seq<string>, c: char)
    requires |xs| >= 1
    requires forall i :: 0 <= i < |xs| ==> c !in xs[i]
    ensures Split(Join(xs, [c]), c) == xs
  {
    if |xs| == 1 {
      SplitNoSeparator(xs[0], c);
    } else {
      SplitAtSeparator(xs[0], c, Join(xs[1..], [c]));
      SplitJoin(xs[1..], c);
      assert [xs[0]] + xs[1..] == xs;
    }
  }

  /** Every element but the first with one leading blank: how `", ".join`
      looks to `split(',')`. */
  function Indent(xs: seq<string>): (r: seq<string>)
    ensures |r| == |xs|
    ensures forall i :: 0 <= i < |xs| ==> r[i] == " " + xs[i]
  {
    if |xs| == 0 then [] else [" " + xs[0]] + Indent(xs[1..])
  }

  lemma {:induction false} JoinIndent(xs: seq<string>)
    requires |xs| >= 1
    ensures Join(Indent(xs), ",") == " " + Join(xs, ", ")
  {
    if |xs| > 1 {
      JoinIndent(xs[1..]);
      assert Indent(xs)[1..] == Indent(xs[1..]);
    }
  }

  lemma {:induction false} JoinCommaSpace(xs: seq<string>)
    requires |xs| >= 1
    ensures Join(xs, ", ") == Join([xs[0]] + Indent(xs[1..]), ",")
  {
    var ys := [xs[0]] + Indent(xs[1..]);
    if |xs| > 1 {
      JoinIndent(xs[1..]);
      assert ys[1..] == Indent(xs[1..]);
      calc {
        Join(ys, ",");
        ys[0] + "," + Join(ys[1..], ",");
        xs[0] + "," + (" " + Join(xs[1..], ", "));
        { assert xs[0] + "," + (" " + Join(xs[1..], ", ")) == xs[0] + ", " + Join(xs[1..], ", "); }
        Join(xs, ", ");
      }
    }
  }

  /** A join of trimmed, non-empty strings with ", " is itself trimmed. */
  lemma {:induction false} JoinTrimmed(xs: seq<string>)
    requires forall i :: 0 <= i < |xs| ==> xs[i] != "" && Trimmed(xs[i])
    ensures Trimmed(Join(xs, ", "))
    ensures |xs| >= 1 ==> Join(xs, ", ") != ""
  {
    if |xs| > 1 {
      JoinTrimmed(xs[1..]);
      var j := Join(xs[1..], ", ");
      assert (xs[0] + ", " + j)[0] == xs[0][0];
      assert (xs[0] + ", " + j)[|xs[0] + ", " + j| - 1] == j[|j| - 1];
    }
  }

  predicate StartsWith(s: string, prefix: string)
  {
    |prefix| <= |s| && s[..|prefix|] == prefix
  }

  predicate EndsWith(s: string, suffix: string)
  {
    |suffix| <= |s| && s[|s| - |suffix|..] == suffix
  }

  /** The first position at or after `i` that holds no whitespace, or the end:
      where a greedy `\s*` starting at `i` stops. */
  function SkipSpaces(s: string, i: nat): (j: nat)
    requires i <= |s|
    ensures i <= j <= |s|
    ensures forall k :: i <= k < j ==> IsSpace(s[k])
    ensures j < |s| ==> !IsSpace(s[j])
    decreases |s| - i
  {
    if i < |s| && IsSpace(s[i]) then SkipSpaces(s, i + 1) else i
  }

  /** `s.replace(pat, rep)`: non-overlapping occurrences, scanned left to right. */
  function ReplaceAll(s: string, pat: string, rep: string): string
    requires |pat| > 0
    decreases |s|
  {
    if |s| == 0 then ""
    else if StartsWith(s, pat) then rep + ReplaceAll(s[|pat|..], pat, rep)
    else [s[0]] + ReplaceAll(s[1..], pat, rep)
  }

  /** No occurrence of `pat` straddles the seam when the second part starts
      with a character foreign to `pat`. */
  lemma {:induction false} ReplaceAllConcat(a: string, b: string, pat: string, rep: string)
    requires |pat| > 0 && |b| > 0 && b[0] !in pat
    ensures ReplaceAll(a + b, pat, rep) == ReplaceAll(a, pat, rep) + ReplaceAll(b, pat, rep)
    decreases |a|
  {
    if |a| == 0 {
      assert a + b == b;
    } else if |pat| <= |a| {
      assert (a + b)[..|pat|] == a[..|pat|];
      if StartsWith(a, pat) {
        assert (a + b)[|pat|..] == a[|pat|..] + b;
        ReplaceAllConcat(a[|pat|..], b, pat, rep);
      } else {
        assert (a + b)[1..] == a[1..] + b;
        ReplaceAllConcat(a[1..], b, pat, rep);
      }
    } else {
      assert !StartsWith(a + b, pat) by {
        assert (a + b)[|a|] == b[0];
        assert b[0] !in pat;
      }
      assert (a + b)[1..] == a[1..] + b;
      ReplaceAllConcat(a[1..], b, pat, rep);
    }
  }

  /** A pattern that cannot begin at a comma or a blank and contains no comma
      leaves a ", "-join alone when it leaves every element alone. */
  lemma {:induction false} ReplaceAllJoin(xs: seq<string>, pat: string, rep: string)
    requires |pat| > 0 && ',' !in pat && pat[0] != ' '
    requires forall i :: 0 <= i < |xs| ==> ReplaceAll(xs[i], pat, rep) == xs[i]
    ensures ReplaceAll(Join(xs, ", "), pat, rep) == Join(xs, ", ")
  {
    if |xs| > 1 {
      var j := Join(xs[1..], ", ");
      ReplaceAllJoin(xs[1..], pat, rep);
      assert xs[0] + ", " + j == xs[0] + ([','] + ([' '] + j));
      ReplaceAllConcat(xs[0], [','] + ([' '] + j), pat, rep);
      assert !StartsWith([','] + ([' '] + j), pat);
      assert ([','] + ([' '] + j))[1..] == [' '] + j;
      assert !StartsWith([' '] + j, pat);
      assert ([' '] + j)[1..] == j;
    }
  }

  /** Replacing a one-character pattern by a string without it removes it. */
  lemma {:induction false} ReplaceAllRemoves(s: string, c: char, rep: string)
    requires c !in rep
    ensures c !in ReplaceAll(s, [c], rep)
    decreases |s|
  {
    if |s| > 0 {
      if StartsWith(s, [c]) {
        ReplaceAllRemoves(s[|[c]|..], c, rep);
      } else {
        assert s[..1] == [s[0]];
        ReplaceAllRemoves(s[1..], c, rep);
      }
    }
  }

  /** A string in which the first character of `pat` never occurs is left alone. */
  lemma {:induction false} ReplaceAllAbsent(s: string, pat: string, rep: string)
    requires |pat| > 0 && pat[0] !in s
    ensures ReplaceAll(s, pat, rep) == s
    decreases |s|
  {
    if |s| > 0 {
      assert !StartsWith(s, pat);
      ReplaceAllAbsent(s[1..], pat, rep);
      assert [s[0]] + s[1..] == s;
    }
  }

  /** `str.lower()`, on ASCII letters only. */
  function Lower(s: string): (r: string)
    ensures |r| == |s|
    ensures forall i :: 0 <= i < |s| ==>
      r[i] == if 'A' <= s[i] <= 'Z' then (s[i] as int + 32) as char else s[i]
  {
    if |s| == 0 then ""
    else [if 'A' <= s[0] <= 'Z' then (s[0] as int + 32) as char else s[0]] + Lower(s[1..])
  }

  /** Python's `needle in haystack` on strings. */
  predicate Contains(haystack: string, needle: string)
  {
    exists i :: 0 <= i <= |haystack| - |needle| && OccursAt(haystack, needle, i)
  }

  predicate OccursAt(haystack: string, needle: string, i: int)
  {
    0 <= i <= |haystack| - |needle| && haystack[i..i + |needle|] == needle
  }

  /** A pattern whose first character does not occur never occurs. */
  lemma NotContainsFirstAbsent(s: string, pat: string)
    requires |pat| > 0 && pat[0] !in s
    ensures !Contains(s, pat)
  {
    forall i | 0 <= i <= |s| - |pat| ensures !OccursAt(s, pat, i) {
      assert s[i..i + |pat|][0] == s[i];
    }
  }

  predicate IsDigit(c: char)
  {
    '0' <= c <= '9'
  }

  /** What `\d+` matches in full (ASCII digits). */
  predicate AllDigits(s: string)
  {
    |s| > 0 && forall i :: 0 <= i < |s| ==> IsDigit(s[i])
  }

  /** The position of the last occurrence of `c` in `s`. */
  function LastIndexOf(s: string, c: char): (r: Option<nat>)
    ensures r.None? <==> c !in s
    ensures r.Some? ==> r.value < |s| && s[r.value] == c && c !in s[r.value + 1..]
  {
    if |s| == 0 then None
    else if s[|s| - 1] == c then Some(|s| - 1)
    else
      var r := LastIndexOf(s[..|s| - 1], c);
      assert s == s[..|s| - 1] + [s[|s| - 1]];
      if r.Some? then assert s[r.value + 1..] == s[..|s| - 1][r.value + 1..] + [s[|s| - 1]]; r
      else r
  }

  /** The position of the first occurrence of `c` in `s`. */
  function FirstIndexOf(s: string, c: char): (r: Option<nat>)
    ensures r.None? <==> c !in s
    ensures r.Some? ==> r.value < |s| && s[r.value] == c && c !in s[..r.value]
  {
    if |s| == 0 then None
    else if s[0] == c then Some(0)
    else
      var r := FirstIndexOf(s[1..], c);
      assert s == [s[0]] + s[1..];
      if r.Some? then assert s[..r.value + 1] == [s[0]] + s[1..][..r.value]; Some(r.value + 1)
      else None
  }
}
