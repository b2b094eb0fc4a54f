/** The label record the vision model returns and the pipeline stores, and
    the textual form a set of labels takes in a table cell: the members
    joined with ", ", read back by splitting on commas. */
module LabelModel {
  import opened Strings
  import opened Ordering

  /** The full-width comma U+FF0C, which label text in Chinese may use. */
  const FullWidthComma: char := '\U{FF0C}'

  /** The six fixed label dimensions. */
  datatype Category = Colors | Materials | Shapes | Decorations | Styles | Effects

  const Categories: seq<Category> := [Colors, Materials, Shapes, Decorations, Styles, Effects]

  lemma CategoriesComplete(c: Category)
    ensures c in Categories
  {
    match c
    case Colors => assert Categories[0] == c;
    case Materials => assert Categories[1] == c;
    case Shapes => assert Categories[2] == c;
    case Decorations => assert Categories[3] == c;
    case Styles => assert Categories[4] == c;
    case Effects => assert Categories[5] == c;
  }

  /** The key of a category, in the model's reply and in the table. */
  function Key(c: Category): string
  {
    match c
    case Colors => "colors"
    case Materials => "materials"
    case Shapes => "shapes"
    case Decorations => "decorations"
    case Styles => "styles"
    case Effects => "effects"
  }

  /** A field the vision model may send either as one string or as a list. */
  datatype TextOrList = Text(s: string) | List(items: seq<string>)

  /** The label dictionary; an absent key reads as the empty list (or the
      empty description), as `dict.get(key, [])` does. */
  datatype Labels = Labels(
    colors: seq<string>,
    materials: seq<string>,
    shapes: seq<string>,
    decorations: seq<string>,
    styles: seq<string>,
    effects: seq<string>,
    looksLike: TextOrList,
    description: string,
    customTags: TextOrList)

  /** `{}` read through `get` with the defaults of the source. */
  const NoLabels: Labels := Labels([], [], [], [], [], [], List([]), "", List([]))

  function Field(l: Labels, c: Category): seq<string>
  {
    match c
    case Colors => l.colors
    case Materials => l.materials
    case Shapes => l.shapes
    case Decorations => l.decorations
    case Styles => l.styles
    case Effects => l.effects
  }

  /** The six categories concatenated in their fixed order, repetitions kept. */
  function AllCategoryLabels(l: Labels): seq<string>
  {
    l.colors + l.materials + l.shapes + l.decorations + l.styles + l.effects
  }

  /** Reading a cell back into a set: strip, rewrite the alternative comma
      `comma` to ",", split on ",", strip every piece and keep the non-empty
      ones. Both readers of the repository follow this recipe; they differ in
      the alternative comma they rewrite. */
  function LabelSet(s: string, comma: string): (r: set<string>)
    requires |comma| > 0
    ensures forall p :: p in r ==> p != "" && Trimmed(p) && ',' !in p
    ensures Trim(s) == "" ==> r == {}
  {
    var text := Trim(s);
    if text == "" then {}
    else
      var parts := Split(ReplaceAll(text, comma, ","), ',');
      PiecesCommaFree(parts);
      var pieces := TrimAll(parts);
      set p | p in pieces && p != ""
  }

  lemma PiecesCommaFree(parts: seq<string>)
    requires forall i :: 0 <= i < |parts| ==> ',' !in parts[i]
    ensures forall p :: p in TrimAll(parts) ==> Trimmed(p) && ',' !in p
  {
    var pieces := TrimAll(parts);
    forall i | 0 <= i < |pieces| ensures Trimmed(pieces[i]) && ',' !in pieces[i] {
      TrimKeepsAbsent(parts[i], ',');
    }
  }

  /** Reading with a one-character alternative comma also leaves that
      character out of every label. */
  lemma LabelSetAvoids(s: string, c: char)
    requires c != ','
    ensures forall p :: p in LabelSet(s, [c]) ==> c !in p
  {
    var text := Trim(s);
    if text != "" {
      var replaced := ReplaceAll(text, [c], ",");
      ReplaceAllRemoves(text, c, ",");
      var parts := Split(replaced, ',');
      SplitKeepsAbsent(replaced, ',', c);
      var pieces := TrimAll(parts);
      forall i | 0 <= i < |pieces| ensures c !in pieces[i] {
        TrimKeepsAbsent(parts[i], c);
      }
    }
  }

  /** A label that survives being written into a cell and read back. */
  predicate CellSafe(x: string, comma: string)
    requires |comma| > 0
  {
    x != "" && Trimmed(x) && ',' !in x && !Contains(x, comma)
  }

  /** An alternative comma that cannot be confused with the ", " separator. */
  predicate SeparatorFree(comma: string)
  {
    |comma| > 0 && ',' !in comma && comma[0] != ' '
  }

  lemma {:induction false} ReplaceAllNoOccurrence(s: string, pat: string, rep: string)
    requires |pat| > 0 && !Contains(s, pat)
    ensures ReplaceAll(s, pat, rep) == s
    decreases |s|
  {
    if |s| > 0 {
      assert !StartsWith(s, pat) by { assert !OccursAt(s, pat, 0); }
      assert !Contains(s[1..], pat) by {
        if Contains(s[1..], pat) {
          var i :| 0 <= i <= |s[1..]| - |pat| && OccursAt(s[1..], pat, i);
          assert s[1..][i..i + |pat|] == s[i + 1..i + 1 + |pat|];
          assert OccursAt(s, pat, i + 1);
        }
      }
      ReplaceAllNoOccurrence(s[1..], pat, rep);
      assert [s[0]] + s[1..] == s;
    }
  }

  /** How `split(',')` sees a ", "-join. */
  lemma SplitOfJoin(xs: seq<string>)
    requires |xs| >= 1
    requires forall i :: 0 <= i < |xs| ==> ',' !in xs[i]
    ensures Split(Join(xs, ", "), ',') == [xs[0]] + Indent(xs[1..])
  {
    var ys := [xs[0]] + Indent(xs[1..]);
    JoinCommaSpace(xs);
    forall i | 0 <= i < |ys| ensures ',' !in ys[i] {
      if i > 0 { assert ys[i] == " " + xs[i]; }
    }
    SplitJoin(ys, ',');
  }

  lemma TrimAllIndent(xs: seq<string>)
    requires |xs| >= 1
    requires forall i :: 0 <= i < |xs| ==> xs[i] != "" && Trimmed(xs[i])
    ensures TrimAll([xs[0]] + Indent(xs[1..])) == xs
  {
    var ys := [xs[0]] + Indent(xs[1..]);
    forall i | 0 <= i < |xs| ensures TrimAll(ys)[i] == xs[i] {
      if i == 0 { TrimOfTrimmed(xs[0]); }
      else { assert ys[i] == " " + xs[i]; TrimIndented(xs[i]); }
    }
  }

  /** Rewriting the alternative comma leaves a ", "-join of cell-safe labels alone. */
  lemma ReplaceAllOfSafeJoin(xs: seq<string>, comma: string)
    requires SeparatorFree(comma)
    requires forall i :: 0 <= i < |xs| ==> CellSafe(xs[i], comma)
    ensures ReplaceAll(Join(xs, ", "), comma, ",") == Join(xs, ", ")
  {
    forall i | 0 <= i < |xs| ensures ReplaceAll(xs[i], comma, ",") == xs[i] {
      ReplaceAllNoOccurrence(xs[i], comma, ",");
    }
    ReplaceAllJoin(xs, comma, ",");
  }

  lemma PiecesOfJoin(xs: seq<string>)
    requires |xs| > 0
    requires forall i :: 0 <= i < |xs| ==> xs[i] != "" && Trimmed(xs[i]) && ',' !in xs[i]
    ensures TrimAll(Split(Join(xs, ", "), ',')) == xs
  {
    SplitOfJoin(xs);
    TrimAllIndent(xs);
  }

  /** What the reader makes of a cell that is already trimmed, holds no
      alternative comma and splits into the pieces `xs`. */
  lemma LabelSetOfPieces(t: string, comma: string, xs: seq<string>)
    requires |comma| > 0 && t != "" && Trim(t) == t && ReplaceAll(t, comma, ",") == t
    requires TrimAll(Split(t, ',')) == xs
    requires forall i :: 0 <= i < |xs| ==> xs[i] != ""
    ensures LabelSet(t, comma) == Elems(xs)
  {
  }

  /** The writer's ", "-join and the reader's split are inverse on labels
      that are non-empty, trimmed and free of both commas. */
  lemma {:induction false} LabelSetOfJoin(xs: seq<string>, comma: string)
    requires SeparatorFree(comma)
    requires forall i :: 0 <= i < |xs| ==> CellSafe(xs[i], comma)
    ensures LabelSet(Join(xs, ", "), comma) == Elems(xs)
  {
    if |xs| > 0 {
      var j := Join(xs, ", ");
      assert j != "" && Trim(j) == j by { JoinTrimmed(xs); TrimOfTrimmed(j); }
      assert ReplaceAll(j, comma, ",") == j by { ReplaceAllOfSafeJoin(xs, comma); }
      assert TrimAll(Split(j, ',')) == xs by { PiecesOfJoin(xs); }
      LabelSetOfPieces(j, comma, xs);
    }
  }
}
