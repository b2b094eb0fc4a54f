/** The offline tag clean-up script: every tag cell of the label table is
    rewritten to the trimmed tokens of more than one character, joined with
    ", "; the full-width comma counts as a separator. */
module NormalizeTags {
  import opened Strings
  import opened Frames
  import opened LabelModel

  /** The columns the script rewrites. */
  const TagColumns: seq<string> :=
    ["colors", "materials", "shapes", "decorations", "styles", "effects", "custom_tags", "all_labels"]

  /** The trimmed pieces of `s` split on ',' once `alt` was rewritten to ','. */
  function TokensOn(s: string, alt: char): seq<string>
  {
    TrimAll(Split(ReplaceAll(s, [alt], ","), ','))
  }

  /** Every piece is trimmed and holds neither ',' nor `alt`. */
  lemma TokensOnClean(s: string, alt: char)
    requires alt != ','
    ensures forall i :: 0 <= i < |TokensOn(s, alt)| ==>
      Trimmed(TokensOn(s, alt)[i]) && ',' !in TokensOn(s, alt)[i] && alt !in TokensOn(s, alt)[i]
  {
    var replaced := ReplaceAll(s, [alt], ",");
    ReplaceAllRemoves(s, alt, ",");
    var parts := Split(replaced, ',');
    SplitKeepsAbsent(replaced, ',', alt);
    var r := TrimAll(parts);
    forall i | 0 <= i < |r| ensures Trimmed(r[i]) && ',' !in r[i] && alt !in r[i] {
      var t := Trim(parts[i]);
      assert Trimmed(t) && r[i] == t;
      TrimKeepsAbsent(parts[i], alt);
      TrimKeepsAbsent(parts[i], ',');
    }
    assert TokensOn(s, alt) == r;
  }

  /** `[t.strip() for t in s.replace('，', ',').split(',')]` */
  function Tokens(s: string): seq<string>
  {
    TokensOn(s, FullWidthComma)
  }

  /** `[t for t in tags if t and len(t) > 1]`: the long tokens, in order,
      repetitions kept. */
  function LongTokens(ts: seq<string>): (r: seq<string>)
    ensures |r| <= |ts|
    ensures forall i :: 0 <= i < |r| ==> |r[i]| > 1
  {
    if |ts| == 0 then []
    else (if |ts[0]| > 1 then [ts[0]] else []) + LongTokens(ts[1..])
  }

  /** The long tokens are exactly the tokens longer than one character. */
  lemma {:induction false} LongTokensMembers(ts: seq<string>, t: string)
    ensures t in LongTokens(ts) <==> t in ts && |t| > 1
  {
    if |ts| > 0 {
      LongTokensMembers(ts[1..], t);
      assert ts == [ts[0]] + ts[1..];
    }
  }

  lemma {:induction false} LongTokensOfLong(ts: seq<string>)
    requires forall i :: 0 <= i < |ts| ==> |ts[i]| > 1
    ensures LongTokens(ts) == ts
  {
    if |ts| > 0 {
      LongTokensOfLong(ts[1..]);
      assert [ts[0]] + ts[1..] == ts;
    }
  }

  /** The tokens `filter_tags` keeps from a non-blank cell. */
  function Kept(s: string): seq<string>
  {
    LongTokens(Tokens(s))
  }

  /** `filter_tags`: '' for NaN or a blank cell, otherwise the kept tokens
      joined with ", ". */
  function FilterTags(c: Cell): (r: string)
    ensures c.NaN? || Trim(c.s) == "" ==> r == ""
    ensures c.Value? && Trim(c.s) != "" ==> r == Join(Kept(c.s), ", ")
  {
    if c.NaN? || Trim(c.s) == "" then "" else Join(Kept(c.s), ", ")
  }

  /** Every kept token is trimmed, longer than one character and free of both commas. */
  lemma KeptTokens(s: string)
    ensures forall i :: 0 <= i < |Kept(s)| ==>
      |Kept(s)[i]| > 1 && Trimmed(Kept(s)[i]) && ',' !in Kept(s)[i] && FullWidthComma !in Kept(s)[i]
  {
    var ts := Tokens(s);
    TokensOnClean(s, FullWidthComma);
    var k := Kept(s);
    forall i | 0 <= i < |k| ensures Trimmed(k[i]) && ',' !in k[i] && FullWidthComma !in k[i] {
      LongTokensMembers(ts, k[i]);
    }
  }

  /** The pieces of a ", "-join of clean tokens are those tokens. */
  lemma TokensOnOfJoin(xs: seq<string>, alt: char)
    requires |xs| > 0 && alt != ',' && alt != ' '
    requires forall i :: 0 <= i < |xs| ==> xs[i] != "" && Trimmed(xs[i]) && ',' !in xs[i] && alt !in xs[i]
    ensures TokensOn(Join(xs, ", "), alt) == xs
  {
    forall i | 0 <= i < |xs| ensures CellSafe(xs[i], [alt]) {
      NotContainsFirstAbsent(xs[i], [alt]);
    }
    ReplaceAllOfSafeJoin(xs, [alt]);
    PiecesOfJoin(xs);
  }

  /** A ", "-join of kept tokens reads back as those tokens. */
  lemma KeptOfJoin(xs: seq<string>)
    requires |xs| > 0
    requires forall i :: 0 <= i < |xs| ==> |xs[i]| > 1 && Trimmed(xs[i]) && ',' !in xs[i] && FullWidthComma !in xs[i]
    ensures Trim(Join(xs, ", ")) != ""
    ensures Kept(Join(xs, ", ")) == xs
  {
    var j := Join(xs, ", ");
    assert Trim(j) == j != "" by { JoinTrimmed(xs); TrimOfTrimmed(j); }
    assert Tokens(j) == xs by { TokensOnOfJoin(xs, FullWidthComma); }
    LongTokensOfLong(xs);
  }

  /** Cleaning a cleaned cell changes nothing. */
  lemma FilterTagsIdempotent(c: Cell)
    ensures FilterTags(Value(FilterTags(c))) == FilterTags(c)
  {
    if c.Value? && Trim(c.s) != "" {
      var k := Kept(c.s);
      KeptTokens(c.s);
      if |k| > 0 {
        KeptOfJoin(k);
      }
    }
  }

  /** One row's cell of `col` replaced by `clean` of it. */
  function CleanCell(row: Row, col: string, clean: Cell -> string): Row
  {
    row[col := Value(clean(Get(row, col)))]
  }

  /** `df[col] = df[col].apply(clean)` */
  function ApplyColumn(rows: seq<Row>, col: string, clean: Cell -> string): (r: seq<Row>)
    ensures |r| == |rows|
    ensures forall i :: 0 <= i < |r| ==> r[i] == CleanCell(rows[i], col, clean)
  {
    seq(|rows|, i requires 0 <= i < |rows| => CleanCell(rows[i], col, clean))
  }

  /** A row after its columns `cols` were cleaned, every other cell as it was. */
  predicate Cleaned(before: Row, after: Row, cols: set<string>, clean: Cell -> string)
  {
    after.Keys == before.Keys + cols &&
    (forall c :: c in cols ==> after[c] == Value(clean(Get(before, c)))) &&
    (forall c :: c in before && c !in cols ==> after[c] == before[c])
  }

  function ColumnsOf(s: seq<string>): set<string>
  {
    set c | c in s
  }

  /** Cleaning one more column of a row. */
  lemma CleanStep(before: Row, mid: Row, cols: set<string>, col: string, clean: Cell -> string)
    requires Cleaned(before, mid, cols, clean) && col !in cols
    ensures Cleaned(before, CleanCell(mid, col, clean), cols + {col}, clean)
  {
    assert Get(mid, col) == Get(before, col);
  }

  /** Rewriting one more column of every row. */
  lemma ApplyColumnStep(before: seq<Row>, mid: seq<Row>, cols: set<string>, col: string, clean: Cell -> string)
    requires |mid| == |before| && col !in cols
    requires forall i :: 0 <= i < |mid| ==> Cleaned(before[i], mid[i], cols, clean)
    ensures forall i :: 0 <= i < |mid| ==> Cleaned(before[i], ApplyColumn(mid, col, clean)[i], cols + {col}, clean)
  {
    forall i | 0 <= i < |mid| ensures Cleaned(before[i], ApplyColumn(mid, col, clean)[i], cols + {col}, clean) {
      CleanStep(before[i], mid[i], cols, col, clean);
    }
  }

  /** The loop over the tag columns with the rewrite `clean`: the columns
      the table has are rewritten, every other column is left alone. */
  method RewriteColumns(f: Frame, clean: Cell -> string) returns (g: Frame)
    ensures g.columns == f.columns && |g.rows| == |f.rows|
    ensures forall i :: 0 <= i < |g.rows| ==> Cleaned(f.rows[i], g.rows[i], ColumnsOf(TagColumns) * f.columns, clean)
  {
    g := f;
    ghost var done: set<string> := {};
    for k := 0 to |TagColumns|
      invariant done == ColumnsOf(TagColumns[..k]) * f.columns
      invariant g.columns == f.columns && |g.rows| == |f.rows|
      invariant forall i :: 0 <= i < |g.rows| ==> Cleaned(f.rows[i], g.rows[i], done, clean)
    {
      var col := TagColumns[k];
      assert TagColumns[..k + 1] == TagColumns[..k] + [col];
      if col in g.columns {
        ApplyColumnStep(f.rows, g.rows, done, col, clean);
        g := g.(rows := ApplyColumn(g.rows, col, clean));
        done := done + {col};
      }
    }
    assert TagColumns[..|TagColumns|] == TagColumns;
  }

  /** The script: `filter_tags` applied to each of the eight tag columns the
      table has; every other column is unchanged. */
  method NormalizeFrame(f: Frame) returns (g: Frame)
    ensures g.columns == f.columns && |g.rows| == |f.rows|
    ensures forall i :: 0 <= i < |g.rows| ==> Cleaned(f.rows[i], g.rows[i], ColumnsOf(TagColumns) * f.columns, FilterTags)
  {
    g := RewriteColumns(f, FilterTags);
  }
}
