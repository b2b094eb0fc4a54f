/** The offline label report: which labels of the six categories the table
    uses, which defined labels it never uses, which labels it uses that are
    not defined, and the set of its custom tags. The table is read as
    `csv.DictReader` reads it: a row maps a header to its field, and a field
    a short row lacks reads as `None`. */
module AnalyzeLabels {
  import opened Strings
  import opened Ordering
  import opened LabelModel

  /** One row of `csv.DictReader`. */
  type DictRow = map<string, Option<string>>

  /** How a field is read into labels; the script reads with `ParseLabels`. */
  type FieldReader = Option<string> -> set<string>

  /** `parse_label_string`: nothing for `None` or a blank field, otherwise
      the trimmed non-empty pieces between commas, the full-width comma
      counting as a comma. */
  function ParseLabels(field: Option<string>): (r: set<string>)
    ensures field.None? || Trim(field.value) == "" ==> r == {}
    ensures forall p :: p in r ==> p != "" && Trimmed(p) && ',' !in p && FullWidthComma !in p
  {
    if field.None? then {}
    else
      LabelSetAvoids(field.value, FullWidthComma);
      LabelSet(field.value, [FullWidthComma])
  }

  /** A ", "-join of labels free of both commas reads back as those labels. */
  lemma ParseLabelsOfJoin(xs: seq<string>)
    requires forall i :: 0 <= i < |xs| ==> xs[i] != "" && Trimmed(xs[i]) && ',' !in xs[i] && FullWidthComma !in xs[i]
    ensures ParseLabels(Some(Join(xs, ", "))) == Elems(xs)
  {
    forall i | 0 <= i < |xs| ensures CellSafe(xs[i], [FullWidthComma]) {
      NotContainsFirstAbsent(xs[i], [FullWidthComma]);
    }
    LabelSetOfJoin(xs, [FullWidthComma]);
  }

  /** The columns the report reads: a category's own, or `custom_tags`. */
  datatype Column = Of(category: Category) | Custom

  /** The labels one row contributes to a column. A category's field counts
      when the row has the key; `custom_tags` only when its field is also
      non-empty. */
  function Read(row: DictRow, col: Column, parse: FieldReader): set<string>
  {
    match col
    case Of(c) => if Key(c) in row then parse(row[Key(c)]) else {}
    case Custom =>
      if "custom_tags" in row && row["custom_tags"].Some? && row["custom_tags"].value != ""
      then parse(row["custom_tags"]) else {}
  }

  /** The guard on `custom_tags` changes nothing: an empty field has no labels. */
  lemma CustomGuardRedundant(row: DictRow)
    ensures Read(row, Custom, ParseLabels) == (if "custom_tags" in row then ParseLabels(row["custom_tags"]) else {})
  {
  }

  /** The labels the rows contribute to a column, gathered row by row. */
  function Gathered(rows: seq<DictRow>, col: Column, parse: FieldReader): set<string>
  {
    if |rows| == 0 then {} else Gathered(rows[..|rows| - 1], col, parse) + Read(rows[|rows| - 1], col, parse)
  }

  /** A label is gathered exactly when some row contributes it. */
  lemma {:induction false} GatheredMembers(rows: seq<DictRow>, col: Column, x: string, parse: FieldReader)
    ensures x in Gathered(rows, col, parse) <==> exists i :: 0 <= i < |rows| && x in Read(rows[i], col, parse)
  {
    if |rows| > 0 {
      var init := rows[..|rows| - 1];
      GatheredMembers(init, col, x, parse);
      if x in Gathered(init, col, parse) {
        var i :| 0 <= i < |init| && x in Read(init[i], col, parse);
        assert rows[i] == init[i];
      }
      if exists i :: 0 <= i < |rows| && x in Read(rows[i], col, parse) {
        var i :| 0 <= i < |rows| && x in Read(rows[i], col, parse);
        if i < |init| { assert init[i] == rows[i]; }
      }
    }
  }

  /** The order of the rows does not matter, nor does repeating one. */
  lemma GatheredOfSame(a: seq<DictRow>, b: seq<DictRow>, col: Column, parse: FieldReader)
    requires forall r :: r in a <==> r in b
    ensures Gathered(a, col, parse) == Gathered(b, col, parse)
  {
    forall x ensures x in Gathered(a, col, parse) <==> x in Gathered(b, col, parse) {
      GatheredMembers(a, col, x, parse);
      GatheredMembers(b, col, x, parse);
      if x in Gathered(a, col, parse) {
        var i :| 0 <= i < |a| && x in Read(a[i], col, parse);
        assert a[i] in b;
        var j :| 0 <= j < |b| && b[j] == a[i];
      }
      if x in Gathered(b, col, parse) {
        var i :| 0 <= i < |b| && x in Read(b[i], col, parse);
        assert b[i] in a;
        var j :| 0 <= j < |a| && a[j] == b[i];
      }
    }
  }

  /** What the report prints for one category. */
  datatype CategoryReport = CategoryReport(
    category: Category,
    definedCount: nat,
    usedCount: nat,
    unused: seq<string>)

  /** The whole report. */
  datatype Report = Report(
    rowCount: nat,
    categories: seq<CategoryReport>,
    totalUnused: nat,
    customTags: seq<string>,
    unknown: seq<(Category, seq<string>)>,
    hasUnknown: bool)

  /** The labels of category `c` used in the rows and not defined. */
  function Unknown(rows: seq<DictRow>, defined: Category -> set<string>, parse: FieldReader, c: Category): set<string>
  {
    Gathered(rows, Of(c), parse) - defined(c)
  }

  /** The defined labels of category `c` the rows never use. */
  function Unused(rows: seq<DictRow>, defined: Category -> set<string>, parse: FieldReader, c: Category): set<string>
  {
    defined(c) - Gathered(rows, Of(c), parse)
  }

  /** The labels of a category fall into three disjoint parts: defined and
      unused, used and not defined, and both defined and used. */
  lemma Partition(rows: seq<DictRow>, defined: Category -> set<string>, parse: FieldReader, c: Category)
    ensures Unused(rows, defined, parse, c) * Unknown(rows, defined, parse, c) == {}
    ensures Unused(rows, defined, parse, c) * (defined(c) * Gathered(rows, Of(c), parse)) == {}
    ensures Unknown(rows, defined, parse, c) * (defined(c) * Gathered(rows, Of(c), parse)) == {}
    ensures Unused(rows, defined, parse, c) + Unknown(rows, defined, parse, c) + defined(c) * Gathered(rows, Of(c), parse)
      == defined(c) + Gathered(rows, Of(c), parse)
  {
  }

  /** The summed number of defined labels never used, over `cats`. */
  function TotalUnused(rows: seq<DictRow>, defined: Category -> set<string>, parse: FieldReader, cats: seq<Category>): nat
  {
    if |cats| == 0 then 0
    else TotalUnused(rows, defined, parse, cats[..|cats| - 1]) + |Unused(rows, defined, parse, cats[|cats| - 1])|
  }

  /** Nothing is unused in total exactly when every category's defined labels are all used. */
  lemma {:induction false} TotalUnusedZero(rows: seq<DictRow>, defined: Category -> set<string>, parse: FieldReader, cats: seq<Category>)
    ensures TotalUnused(rows, defined, parse, cats) == 0 <==> forall k :: 0 <= k < |cats| ==> Unused(rows, defined, parse, cats[k]) == {}
  {
    if |cats| > 0 {
      var init := cats[..|cats| - 1];
      TotalUnusedZero(rows, defined, parse, init);
      assert forall k :: 0 <= k < |init| ==> init[k] == cats[k];
    }
  }

  /** The categories of `cats` with a used label that is not defined, in order. */
  function UnknownCategories(rows: seq<DictRow>, defined: Category -> set<string>, parse: FieldReader, cats: seq<Category>): seq<Category>
  {
    if |cats| == 0 then []
    else
      var c := cats[|cats| - 1];
      UnknownCategories(rows, defined, parse, cats[..|cats| - 1]) + (if Unknown(rows, defined, parse, c) != {} then [c] else [])
  }

  lemma {:induction false} UnknownCategoriesMembers(rows: seq<DictRow>, defined: Category -> set<string>, parse: FieldReader, cats: seq<Category>, c: Category)
    ensures c in UnknownCategories(rows, defined, parse, cats) <==> c in cats && Unknown(rows, defined, parse, c) != {}
  {
    if |cats| > 0 {
      var init := cats[..|cats| - 1];
      UnknownCategoriesMembers(rows, defined, parse, init, c);
      assert cats == init + [cats[|cats| - 1]];
    }
  }

  /** `used_labels` after a row: the set of each category of `cats` grows
      by what the row has in that category's column; the others stay. */
  method AddRow(used: map<Category, set<string>>, row: DictRow, parse: FieldReader, cats: seq<Category>)
    returns (r: map<Category, set<string>>)
    requires forall c: Category :: c in used
    ensures forall c: Category :: c in r
    ensures forall c: Category :: c in cats ==> r[c] == used[c] + Read(row, Of(c), parse)
    ensures forall c: Category :: c !in cats ==> r[c] == used[c]
  {
    r := used;
    for k := 0 to |cats|
      invariant forall c: Category :: c in r
      invariant forall c: Category :: c in cats[..k] ==> r[c] == used[c] + Read(row, Of(c), parse)
      invariant forall c: Category :: c !in cats[..k] ==> r[c] == used[c]
    {
      var c := cats[k];
      assert cats[..k + 1] == cats[..k] + [c];
      if Key(c) in row {
        r := r[c := r[c] + parse(row[Key(c)])];
      }
    }
    assert cats[..|cats|] == cats;
  }

  /** The loop over the rows: the row count, the used labels of every
      category and the custom tags. */
  method Scan(rows: seq<DictRow>, parse: FieldReader) returns (count: nat, used: map<Category, set<string>>, custom: set<string>)
    ensures count == |rows|
    ensures forall c: Category :: c in used && used[c] == Gathered(rows, Of(c), parse)
    ensures custom == Gathered(rows, Custom, parse)
  {
    count := 0;
    used := map c | c in Categories :: {};
    forall c: Category ensures c in used {
      CategoriesComplete(c);
    }
    custom := {};
    for n := 0 to |rows|
      invariant count == n
      invariant forall c: Category :: c in used && used[c] == Gathered(rows[..n], Of(c), parse)
      invariant custom == Gathered(rows[..n], Custom, parse)
    {
      assert rows[..n + 1][..n] == rows[..n];
      var row := rows[n];
      count := count + 1;
      used := AddRow(used, row, parse, Categories);
      forall c: Category ensures used[c] == Gathered(rows[..n + 1], Of(c), parse) {
        CategoriesComplete(c);
      }
      if "custom_tags" in row && row["custom_tags"].Some? && row["custom_tags"].value != "" {
        custom := custom + parse(row["custom_tags"]);
      }
    }
    assert rows[..|rows|] == rows;
  }

  /** What the printed report says about rows read with `parse`: the row
      count; for each category in its fixed order the number of defined and
      of used labels and the unused ones; their total; the custom tags; and
      the categories with labels that are used but not defined, with those
      labels. Every list is in ascending order. */
  predicate Describes(r: Report, rows: seq<DictRow>, defined: Category -> set<string>, parse: FieldReader)
  {
    r.rowCount == |rows| &&
    |r.categories| == |Categories| &&
    (forall k :: 0 <= k < |Categories| ==>
      (var c := Categories[k];
       var e := r.categories[k];
       e.category == c &&
       e.definedCount == |defined(c)| &&
       e.usedCount == |Gathered(rows, Of(c), parse)| &&
       StrictlySorted(e.unused) && Elems(e.unused) == Unused(rows, defined, parse, c))) &&
    r.totalUnused == TotalUnused(rows, defined, parse, Categories) &&
    StrictlySorted(r.customTags) && Elems(r.customTags) == Gathered(rows, Custom, parse) &&
    |r.unknown| == |UnknownCategories(rows, defined, parse, Categories)| &&
    (forall k :: 0 <= k < |r.unknown| ==>
      (r.unknown[k].0 == UnknownCategories(rows, defined, parse, Categories)[k] &&
       StrictlySorted(r.unknown[k].1) &&
       Elems(r.unknown[k].1) == Unknown(rows, defined, parse, r.unknown[k].0))) &&
    (r.hasUnknown <==> |r.unknown| > 0)
  }

  /** The per-category part of the report and the total of unused labels,
      from the used labels of every category, over `cats`. */
  method CategoryReports(rows: seq<DictRow>, defined: Category -> set<string>, parse: FieldReader, used: map<Category, set<string>>, cats: seq<Category>)
    returns (categories: seq<CategoryReport>, total: nat)
    requires forall c: Category :: c in used && used[c] == Gathered(rows, Of(c), parse)
    ensures |categories| == |cats|
    ensures forall k :: 0 <= k < |cats| ==>
      (var c := cats[k];
       var e := categories[k];
       e.category == c &&
       e.definedCount == |defined(c)| &&
       e.usedCount == |Gathered(rows, Of(c), parse)| &&
       StrictlySorted(e.unused) && Elems(e.unused) == Unused(rows, defined, parse, c))
    ensures total == TotalUnused(rows, defined, parse, cats)
  {
    categories := [];
    total := 0;
    for k := 0 to |cats|
      invariant |categories| == k
      invariant total == TotalUnused(rows, defined, parse, cats[..k])
      invariant forall j :: 0 <= j < k ==>
        (var c := cats[j];
         var e := categories[j];
         e.category == c && e.definedCount == |defined(c)| && e.usedCount == |Gathered(rows, Of(c), parse)| &&
         StrictlySorted(e.unused) && Elems(e.unused) == Unused(rows, defined, parse, c))
    {
      var c := cats[k];
      assert cats[..k + 1][..k] == cats[..k];
      var unused := defined(c) - used[c];
      var sorted := SortSet(unused);
      categories := categories + [CategoryReport(c, |defined(c)|, |used[c]|, sorted)];
      if unused != {} {
        total := total + |unused|;
      }
    }
    assert cats[..|cats|] == cats;
  }

  /** The check for used labels that are not defined, category by category of `cats`. */
  method UnknownReports(rows: seq<DictRow>, defined: Category -> set<string>, parse: FieldReader, used: map<Category, set<string>>, cats: seq<Category>)
    returns (unknown: seq<(Category, seq<string>)>, hasUnknown: bool)
    requires forall c: Category :: c in used && used[c] == Gathered(rows, Of(c), parse)
    ensures |unknown| == |UnknownCategories(rows, defined, parse, cats)|
    ensures forall k :: 0 <= k < |unknown| ==>
      (unknown[k].0 == UnknownCategories(rows, defined, parse, cats)[k] &&
       StrictlySorted(unknown[k].1) &&
       Elems(unknown[k].1) == Unknown(rows, defined, parse, unknown[k].0))
    ensures hasUnknown <==> |unknown| > 0
  {
    unknown := [];
    hasUnknown := false;
    for k := 0 to |cats|
      invariant |unknown| == |UnknownCategories(rows, defined, parse, cats[..k])|
      invariant forall j :: 0 <= j < |unknown| ==>
        (unknown[j].0 == UnknownCategories(rows, defined, parse, cats[..k])[j] &&
         StrictlySorted(unknown[j].1) && Elems(unknown[j].1) == Unknown(rows, defined, parse, unknown[j].0))
      invariant hasUnknown <==> |unknown| > 0
    {
      var c := cats[k];
      assert cats[..k + 1][..k] == cats[..k];
      var u := used[c] - defined(c);
      if u != {} {
        hasUnknown := true;
        var sorted := SortSet(u);
        unknown := unknown + [(c, sorted)];
      }
    }
    assert cats[..|cats|] == cats;
  }

  /** `analyze_csv` with the field reader `parse`: nothing when the file is
      missing, otherwise the report it prints. */
  method AnalyzeWith(fileExists: bool, rows: seq<DictRow>, defined: Category -> set<string>, parse: FieldReader) returns (r: Option<Report>)
    ensures r.None? <==> !fileExists
    ensures r.Some? ==> Describes(r.value, rows, defined, parse)
  {
    if !fileExists {
      return None;
    }
    var count, used, custom := Scan(rows, parse);
    var categories, total := CategoryReports(rows, defined, parse, used, Categories);
    var customTags := SortSet(custom);
    var unknown, hasUnknown := UnknownReports(rows, defined, parse, used, Categories);
    r := Some(Report(count, categories, total, customTags, unknown, hasUnknown));
  }

  /** `analyze_csv`: the report on the rows read with `parse_label_string`;
      `defined` gives the defined labels of each category. */
  method AnalyzeCsv(fileExists: bool, rows: seq<DictRow>, defined: Category -> set<string>) returns (r: Option<Report>)
    ensures r.None? <==> !fileExists
    ensures r.Some? ==> Describes(r.value, rows, defined, ParseLabels)
  {
    r := AnalyzeWith(fileExists, rows, defined, ParseLabels);
  }

  lemma NoneUnused(rows: seq<DictRow>, defined: Category -> set<string>, parse: FieldReader)
    ensures TotalUnused(rows, defined, parse, Categories) == 0 <==> forall c: Category :: Unused(rows, defined, parse, c) == {}
  {
    TotalUnusedZero(rows, defined, parse, Categories);
    if TotalUnused(rows, defined, parse, Categories) == 0 {
      forall c: Category ensures Unused(rows, defined, parse, c) == {} {
        CategoriesComplete(c);
        var k :| 0 <= k < |Categories| && Categories[k] == c;
      }
    }
  }

  lemma SomeUnknown(rows: seq<DictRow>, defined: Category -> set<string>, parse: FieldReader)
    ensures |UnknownCategories(rows, defined, parse, Categories)| > 0 <==> exists c: Category :: Unknown(rows, defined, parse, c) != {}
  {
    var cats := UnknownCategories(rows, defined, parse, Categories);
    if |cats| > 0 {
      UnknownCategoriesMembers(rows, defined, parse, Categories, cats[0]);
    }
    if exists c: Category :: Unknown(rows, defined, parse, c) != {} {
      var c: Category :| Unknown(rows, defined, parse, c) != {};
      CategoriesComplete(c);
      UnknownCategoriesMembers(rows, defined, parse, Categories, c);
    }
  }

  /** What the two summary lines of the report mean: the total of unused
      labels is zero exactly when every category uses all its defined
      labels, and the report has unknown labels exactly when some category
      uses a label it does not define. */
  lemma ReportSummary(r: Report, rows: seq<DictRow>, defined: Category -> set<string>, parse: FieldReader)
    requires Describes(r, rows, defined, parse)
    ensures r.totalUnused == 0 <==> forall c: Category :: Unused(rows, defined, parse, c) == {}
    ensures r.hasUnknown <==> exists c: Category :: Unknown(rows, defined, parse, c) != {}
  {
    NoneUnused(rows, defined, parse);
    SomeUnknown(rows, defined, parse);
  }
}
