/** The equipment search service over a loaded label table: the Jaccard
    similarity of a query and a row's labels, the top-k ranking, the cache
    of all tags, lookup by id and the all-tags search. */
module App {
  import opened Strings
  import opened Ordering
  import opened Frames
  import opened Ratios
  import opened Ranking
  import FileUtils

  // ---------------------------------------------------------------------
  // Replies

  /** A handler's answer: its value, or the HTTP status of the exception it raises. */
  datatype Reply<T> = Ok(value: T) | Fail(status: nat)

  const NotLoaded: nat := 500
  const BadRequest: nat := 400
  const NotFound: nat := 404
  const Unprocessable: nat := 422

  /** The label reader, `parse_label_string`; the service's functions take
      it as a parameter `parse`, and the service object holds the one of the
      ledger reader, `FileUtils.ParseLabelString`. */
  type Reader = string -> set<string>

  // ---------------------------------------------------------------------
  // Cardinalities

  lemma {:induction false} SubsetCard<T>(a: set<T>, b: set<T>)
    requires a <= b
    ensures |a| <= |b|
    decreases a
  {
    if a != {} {
      var x :| x in a;
      SubsetCard(a - {x}, b - {x});
    }
  }

  /** A subset as large as its superset is the whole superset. */
  lemma SubsetCardEqual<T>(a: set<T>, b: set<T>)
    requires a <= b && |a| == |b|
    ensures a == b
  {
    if a != b {
      var x :| x in b && x !in a;
      SubsetCard(a, b - {x});
    }
  }

  // ---------------------------------------------------------------------
  // Similarity

  /** `calculate_label_similarity`: |Q ∩ E| / |Q ∪ E| for the query set Q and
      the labels E of the cell, 0 when the cell is empty, NaN, or holds no label. */
  function Similarity(query: seq<string>, cell: Cell, parse: Reader): (r: Ratio)
    ensures r.num <= r.den
    ensures !Present(cell) ==> r == Zero
    ensures Present(cell) && parse(cell.s) == {} ==> r == Zero
    ensures Present(cell) && parse(cell.s) != {} ==>
      r.num == |Elems(query) * parse(cell.s)| && r.den == |Elems(query) + parse(cell.s)|
  {
    if !Present(cell) then Zero
    else
      var e := parse(cell.s);
      if e == {} then Zero
      else
        var q := Elems(query);
        SubsetCard(q * e, q + e);
        SubsetCard(e, q + e);
        Fraction(|q * e|, |q + e|)
  }

  /** The similarity is 1 exactly when the query is the row's (non-empty) label set. */
  lemma SimilarityOne(query: seq<string>, cell: Cell, parse: Reader)
    ensures IsOne(Similarity(query, cell, parse)) <==> Present(cell) && parse(cell.s) != {} && Elems(query) == parse(cell.s)
  {
    if Present(cell) && parse(cell.s) != {} {
      var q, e := Elems(query), parse(cell.s);
      if q == e {
        assert q * e == q + e;
      }
      if |q * e| == |q + e| {
        SubsetCardEqual(q * e, q + e);
        assert forall x :: x in q <==> x in e by {
          forall x ensures x in q <==> x in e {
            assert x in q + e ==> x in q * e;
          }
        }
      }
    }
  }

  /** The similarity is 0 exactly when the cell holds no label or none is in the query. */
  lemma SimilarityZero(query: seq<string>, cell: Cell, parse: Reader)
    ensures Similarity(query, cell, parse).num == 0 <==> !Present(cell) || Elems(query) * parse(cell.s) == {}
  {
  }

  /** With the reader of the service, a query made of the labels an item was
      saved with finds that item's `all_labels` cell with similarity 1. */
  lemma SimilarityOfOwnLabels(xs: seq<string>)
    requires |xs| > 0 && forall i :: 0 <= i < |xs| ==> FileUtils.Safe(xs[i])
    ensures IsOne(Similarity(xs, Value(Join(xs, ", ")), FileUtils.ParseLabelString))
  {
    var cell := Value(Join(xs, ", "));
    FileUtils.ParseLabelStringOfJoin(xs);
    assert Present(cell) by { JoinTrimmed(xs); }
    assert xs[0] in Elems(xs);
    SimilarityOne(xs, cell, FileUtils.ParseLabelString);
  }

  // ---------------------------------------------------------------------
  // Ranking

  /** One entry of `match_equipment`'s list. */
  datatype Match = Match(id: string, name: string, similarity: Ratio, matched: set<string>)

  function SimilarityOf(m: Match): Ratio
  {
    m.similarity
  }

  /** The entry for one row; `str(all_labels)` turns NaN into "nan", which
      then counts as a label of the row for `matched_labels`. */
  function Score(query: seq<string>, row: Row, parse: Reader): (m: Match)
    ensures m.similarity == Similarity(query, Get(row, "all_labels"), parse)
    ensures m.matched == Elems(query) * parse(Str(Get(row, "all_labels")))
  {
    Match(Str(Get(row, "equipment_id")), Str(Get(row, "equipment_name")),
          Similarity(query, Get(row, "all_labels"), parse),
          Elems(query) * parse(Str(Get(row, "all_labels"))))
  }

  /** The ranked list `match_equipment` returns: the entries of all rows,
      stably sorted by descending similarity, cut to `topK`. */
  function Ranked(rows: seq<Row>, query: seq<string>, topK: int, parse: Reader): seq<Match>
  {
    var scores := seq(|rows|, i requires 0 <= i < |rows| => Score(query, rows[i], parse));
    Take(SortDesc(scores, SimilarityOf), topK)
  }

  /** The ranking has `min(topK, |rows|)` entries for a non-negative `topK`,
      is non-increasing, holds only entries of rows, and keeps rows of equal
      similarity in row order. */
  lemma RankedShape(rows: seq<Row>, query: seq<string>, topK: int, parse: Reader)
    ensures topK >= 0 ==> |Ranked(rows, query, topK, parse)| == if topK <= |rows| then topK else |rows|
    ensures Descending(Ranked(rows, query, topK, parse), SimilarityOf)
    ensures forall m :: m in Ranked(rows, query, topK, parse) ==> exists i :: 0 <= i < |rows| && m == Score(query, rows[i], parse)
    ensures forall k :: var w := WithScore(Ranked(rows, query, topK, parse), SimilarityOf, k);
      var all := WithScore(seq(|rows|, i requires 0 <= i < |rows| => Score(query, rows[i], parse)), SimilarityOf, k);
      |w| <= |all| && w == all[..|w|]
  {
    var scores := seq(|rows|, i requires 0 <= i < |rows| => Score(query, rows[i], parse));
    var sorted := SortDesc(scores, SimilarityOf);
    var r := Ranked(rows, query, topK, parse);
    assert r == sorted[..|r|];
    forall k ensures var w := WithScore(r, SimilarityOf, k); var all := WithScore(scores, SimilarityOf, k);
      |w| <= |all| && w == all[..|w|]
    {
      PrefixWithScore(sorted, |r|, SimilarityOf, k);
    }
    forall m | m in r ensures exists i :: 0 <= i < |rows| && m == Score(query, rows[i], parse) {
      assert m in multiset(sorted);
      assert m in multiset(scores);
      var i :| 0 <= i < |scores| && scores[i] == m;
    }
  }

  // ---------------------------------------------------------------------
  // The tag cache

  /** The labels of one cell, when it is a non-empty string. */
  function CellLabels(row: Row, col: string, parse: Reader): set<string>
  {
    var c := Get(row, col);
    if Present(c) then parse(c.s) else {}
  }

  /** The union of `CellLabels` over a column. */
  function ColumnLabels(rows: seq<Row>, col: string, parse: Reader): set<string>
  {
    if |rows| == 0 then {} else ColumnLabels(rows[..|rows| - 1], col, parse) + CellLabels(rows[|rows| - 1], col, parse)
  }

  lemma {:induction false} ColumnLabelsMembers(rows: seq<Row>, col: string, x: string, parse: Reader)
    ensures x in ColumnLabels(rows, col, parse) <==> exists i :: 0 <= i < |rows| && x in CellLabels(rows[i], col, parse)
  {
    if |rows| > 0 {
      var init := rows[..|rows| - 1];
      ColumnLabelsMembers(init, col, x, parse);
      if x in ColumnLabels(init, col, parse) {
        var i :| 0 <= i < |init| && x in CellLabels(init[i], col, parse);
        assert rows[i] == init[i];
      }
      if exists i :: 0 <= i < |rows| && x in CellLabels(rows[i], col, parse) {
        var i :| 0 <= i < |rows| && x in CellLabels(rows[i], col, parse);
        if i < |init| { assert rows[i] == init[i]; }
      }
    }
  }

  /** The labels `build_tags_cache` collects from one column, if the table has it. */
  function TagsOf(f: Frame, col: string, parse: Reader): set<string>
  {
    if col in f.columns then ColumnLabels(f.rows, col, parse) else {}
  }

  /** What `build_tags_cache` returns. */
  function TagsCache(f: Frame, parse: Reader): set<string>
  {
    TagsOf(f, "all_labels", parse) + TagsOf(f, "custom_tags", parse)
  }

  /** The cache holds exactly the labels of the non-empty `all_labels` and
      `custom_tags` cells of the table's columns. */
  lemma TagsCacheMembers(f: Frame, x: string, parse: Reader)
    ensures x in TagsCache(f, parse) <==>
      exists col, i :: col in {"all_labels", "custom_tags"} && col in f.columns && 0 <= i < |f.rows| && x in CellLabels(f.rows[i], col, parse)
  {
    ColumnLabelsMembers(f.rows, "all_labels", x, parse);
    ColumnLabelsMembers(f.rows, "custom_tags", x, parse);
  }

  /** `build_tags_cache`: the two loops over the rows. */
  method BuildTagsCache(f: Frame, parse: Reader) returns (tags: set<string>)
    ensures tags == TagsCache(f, parse)
  {
    tags := {};
    if "all_labels" in f.columns {
      for i := 0 to |f.rows|
        invariant tags == ColumnLabels(f.rows[..i], "all_labels", parse)
      {
        assert f.rows[..i + 1][..i] == f.rows[..i];
        tags := tags + CellLabels(f.rows[i], "all_labels", parse);
      }
      assert f.rows[..|f.rows|] == f.rows;
    }
    var custom := {};
    if "custom_tags" in f.columns {
      for i := 0 to |f.rows|
        invariant custom == ColumnLabels(f.rows[..i], "custom_tags", parse)
      {
        assert f.rows[..i + 1][..i] == f.rows[..i];
        custom := custom + CellLabels(f.rows[i], "custom_tags", parse);
      }
      assert f.rows[..|f.rows|] == f.rows;
    }
    tags := tags + custom;
  }

  // ---------------------------------------------------------------------
  // Lookup by id

  /** A row whose id, as a string, is `id`. */
  predicate HasId(row: Row, id: string)
  {
    Str(Get(row, "equipment_id")) == id
  }

  /** The first row from `i` on with the id. */
  function FirstWithId(rows: seq<Row>, id: string, i: nat): (r: Option<nat>)
    requires i <= |rows|
    ensures r.Some? ==> i <= r.value < |rows| && HasId(rows[r.value], id)
    decreases |rows| - i
  {
    if i == |rows| then None
    else if HasId(rows[i], id) then Some(i)
    else FirstWithId(rows, id, i + 1)
  }

  /** No row before the one found has the id, and none at all when none is found. */
  lemma {:induction false} FirstWithIdLeast(rows: seq<Row>, id: string, i: nat)
    requires i <= |rows|
    ensures FirstWithId(rows, id, i).Some? ==> forall j :: i <= j < FirstWithId(rows, id, i).value ==> !HasId(rows[j], id)
    ensures FirstWithId(rows, id, i).None? ==> forall j :: i <= j < |rows| ==> !HasId(rows[j], id)
    decreases |rows| - i
  {
    if i < |rows| && !HasId(rows[i], id) {
      FirstWithIdLeast(rows, id, i + 1);
    }
  }

  /** `str(x) if pd.notna(x) else ''` */
  function TextOrEmpty(c: Cell): string
  {
    match c
    case Value(s) => s
    case NaN => ""
  }

  /** The eight columns `get_equipment_by_id` parses into label lists. */
  const LabelColumns: set<string> :=
    {"colors", "materials", "shapes", "decorations", "styles", "effects", "custom_tags", "appearance_looks_like"}

  /** The answer of `/equipment/{id}`; a label list built from a set has no
      fixed order, so it is modelled as the set. */
  datatype Details = Details(
    id: string,
    name: string,
    labels: map<string, set<string>>,
    description: string,
    frontImage: Option<string>,
    backImage: Option<string>)

  function DetailsOf(columns: set<string>, row: Row, parse: Reader): (d: Details)
    ensures d.labels.Keys == LabelColumns
    ensures forall c :: c in LabelColumns ==> d.labels[c] == parse(Str(Get(row, c)))
    ensures d.frontImage.Some? <==> "front_image" in columns
    ensures d.backImage.Some? <==> "back_image" in columns
  {
    Details(
      Str(Get(row, "equipment_id")),
      Str(Get(row, "equipment_name")),
      map c | c in LabelColumns :: parse(Str(Get(row, c))),
      TextOrEmpty(Get(row, "appearance_description")),
      if "front_image" in columns then Some(TextOrEmpty(Get(row, "front_image"))) else None,
      if "back_image" in columns then Some(TextOrEmpty(Get(row, "back_image"))) else None)
  }

  // ---------------------------------------------------------------------
  // Search

  /** `{tag.strip() for tag in tags if tag and tag.strip()}` */
  function SearchTags(tags: seq<string>): (r: set<string>)
    ensures forall t :: t in r ==> t != "" && Trimmed(t)
    ensures forall t :: t in tags && Trim(t) != "" ==> Trim(t) in r
    ensures forall t :: t in r ==> exists u :: u in tags && Trim(u) == t
  {
    set t | t in tags && Trim(t) != "" :: Trim(t)
  }

  /** One entry of the search results; the three match lists come from
      iterating over a set, so they are modelled as sets. */
  datatype Hit = Hit(
    id: string,
    name: string,
    allLabels: string,
    description: string,
    score: Ratio,
    matchedLabels: set<string>,
    descriptionMatches: set<string>,
    nameMatches: set<string>)

  function ScoreOf(h: Hit): Ratio
  {
    h.score
  }

  /** `str(x).lower() if x and pd.notna(x) else ""` */
  function LowerText(c: Cell): string
  {
    if Present(c) then Lower(c.s) else ""
  }

  /** The tags that occur, lower-cased, in `text`. */
  function TagsIn(search: set<string>, text: string): (r: set<string>)
    ensures r <= search
  {
    set t | t in search && Contains(text, Lower(t))
  }

  /** `all_matched_tags`: the search tags among the row's labels, in its
      description and in its name. */
  function MatchedTags(search: set<string>, row: Row, parse: Reader): (r: set<string>)
    ensures r <= search
  {
    search * CellLabels(row, "all_labels", parse)
      + TagsIn(search, LowerText(Get(row, "appearance_description")))
      + TagsIn(search, LowerText(Get(row, "equipment_name")))
  }

  /** The body of the row loop of `search_equipment`: the row is kept when
      the tags it matches are as many as the search tags. */
  function HitOf(search: set<string>, row: Row, parse: Reader): (r: Option<Hit>)
    requires search != {}
    ensures r.Some? ==> r.value.score == Fraction(|search|, |search|)
  {
    var all := MatchedTags(search, row, parse);
    if |all| == |search| then
      var a, d := Get(row, "all_labels"), Get(row, "appearance_description");
      Some(Hit(Str(Get(row, "equipment_id")), Str(Get(row, "equipment_name")),
               if Present(a) then a.s else "", if Present(d) then d.s else "",
               Fraction(|all|, |search|),
               search * CellLabels(row, "all_labels", parse),
               TagsIn(search, LowerText(d)),
               TagsIn(search, LowerText(Get(row, "equipment_name")))))
    else None
  }

  /** A tag matches a row when it is one of the row's labels or occurs,
      lower-cased, in the row's lower-cased description or name. */
  predicate TagMatches(row: Row, t: string, parse: Reader)
  {
    t in CellLabels(row, "all_labels", parse)
    || Contains(LowerText(Get(row, "appearance_description")), Lower(t))
    || Contains(LowerText(Get(row, "equipment_name")), Lower(t))
  }

  /** The matched tags are the search tags that match the row. */
  lemma MatchedTagsMember(search: set<string>, row: Row, parse: Reader, t: string)
    ensures t in MatchedTags(search, row, parse) <==> t in search && TagMatches(row, t, parse)
  {
  }

  /** A row is a hit exactly when every search tag is one of its labels or
      occurs, lower-cased, in its lower-cased description or name. */
  lemma HitIff(search: set<string>, row: Row, parse: Reader)
    requires search != {}
    ensures HitOf(search, row, parse).Some? <==> forall t :: t in search ==> TagMatches(row, t, parse)
  {
    var all := MatchedTags(search, row, parse);
    AllOf(all, search);
    forall t | t in search ensures t in all <==> TagMatches(row, t, parse) {
      MatchedTagsMember(search, row, parse, t);
    }
  }

  /** A subset has as many members as the set iff it holds every member of it. */
  lemma AllOf<T>(a: set<T>, b: set<T>)
    requires a <= b
    ensures |a| == |b| <==> forall x :: x in b ==> x in a
  {
    if |a| == |b| {
      SubsetCardEqual(a, b);
    } else {
      assert a != b;
    }
  }

  /** The hits of `rows`, in row order. */
  function Hits(search: set<string>, rows: seq<Row>, parse: Reader): (r: seq<Hit>)
    requires search != {}
    ensures |r| <= |rows|
    ensures forall i :: 0 <= i < |r| ==> r[i].score == Fraction(|search|, |search|)
  {
    if |rows| == 0 then []
    else
      var h := HitOf(search, rows[|rows| - 1], parse);
      Hits(search, rows[..|rows| - 1], parse) + (if h.Some? then [h.value] else [])
  }

  lemma HitsStep(search: set<string>, rows: seq<Row>, i: nat, parse: Reader)
    requires search != {} && i < |rows|
    ensures Hits(search, rows[..i + 1], parse) ==
      Hits(search, rows[..i], parse) + (if HitOf(search, rows[i], parse).Some? then [HitOf(search, rows[i], parse).value] else [])
  {
    assert rows[..i + 1][..i] == rows[..i];
  }

  /** The row loop of `search_equipment`. */
  method CollectHits(search: set<string>, rows: seq<Row>, parse: Reader) returns (results: seq<Hit>)
    requires search != {}
    ensures results == Hits(search, rows, parse)
  {
    results := [];
    for i := 0 to |rows|
      invariant results == Hits(search, rows[..i], parse)
    {
      HitsStep(search, rows, i, parse);
      var h := HitOf(search, rows[i], parse);
      if h.Some? {
        results := results + [h.value];
      }
    }
    assert rows[..|rows|] == rows;
  }

  /** The answer of `/search`. */
  datatype SearchReply = SearchReply(queryTags: set<string>, total: nat, results: seq<Hit>)

  /** Sorting the hits by score changes nothing, since every score is 1. */
  lemma HitsSortedAlready(search: set<string>, rows: seq<Row>, parse: Reader)
    requires search != {}
    ensures SortDesc(Hits(search, rows, parse), ScoreOf) == Hits(search, rows, parse)
  {
    SortDescOfTies(Hits(search, rows, parse), ScoreOf, Fraction(|search|, |search|));
  }

  // ---------------------------------------------------------------------
  // The service and its start-up state

  const NoTable: Frame := Frame({}, [])

  /** The module globals `equipment_df` and `all_tags_cache`, and the label
      reader the service imports. */
  class SearchApp {
    var table: Option<Frame>
    var tags: set<string>
    const parse: Reader

    /** The state at import: no table, an empty cache. */
    constructor ()
      ensures table == None && tags == {}
      ensures parse == FileUtils.ParseLabelString
    {
      table := None;
      tags := {};
      parse := FileUtils.ParseLabelString;
    }

    /** `equipment_df is None or equipment_df.empty` */
    predicate Unloaded()
      reads this
    {
      table.None? || IsEmpty(table.value)
    }

    /** `startup_event`: the table read from the file and its tag cache, or an
        empty table and cache when the file does not exist. */
    method Startup(fileExists: bool, contents: Frame)
      modifies this
      ensures table == Some(if fileExists then contents else NoTable)
      ensures tags == if fileExists then TagsCache(contents, parse) else {}
    {
      if fileExists {
        table := Some(contents);
        tags := BuildTagsCache(contents, parse);
      } else {
        table := Some(NoTable);
        tags := {};
      }
    }

    /** `match_equipment` */
    method MatchEquipment(query: seq<string>, topK: int) returns (r: Reply<seq<Match>>)
      ensures Unloaded() ==> r == Fail(NotLoaded)
      ensures !Unloaded() ==> r == Ok(Ranked(table.value.rows, query, topK, parse))
    {
      if Unloaded() {
        return Fail(NotLoaded);
      }
      var rows := table.value.rows;
      var results: seq<Match> := [];
      for i := 0 to |rows|
        invariant |results| == i
        invariant forall j :: 0 <= j < i ==> results[j] == Score(query, rows[j], parse)
      {
        results := results + [Score(query, rows[i], parse)];
      }
      assert results == seq(|rows|, i requires 0 <= i < |rows| => Score(query, rows[i], parse));
      var sorted := SortDesc(results, SimilarityOf);
      r := Ok(Take(sorted, topK));
    }

    /** `/tags`: the cache in ascending order, and its size. */
    method GetAllTags() returns (r: Reply<(seq<string>, nat)>)
      ensures tags == {} <==> r == Fail(NotLoaded)
      ensures tags != {} ==> r.Ok? && StrictlySorted(r.value.0) && Elems(r.value.0) == tags && r.value.1 == |tags|
    {
      if tags == {} {
        return Fail(NotLoaded);
      }
      var sorted := SortSet(tags);
      r := Ok((sorted, |sorted|));
    }

    /** `/equipment/{equipment_id}`: the details of the first row whose id,
        as a string, is the argument. */
    method GetEquipmentById(id: string) returns (r: Reply<Details>)
      ensures Unloaded() ==> r == Fail(NotLoaded)
      ensures !Unloaded() && "equipment_id" !in table.value.columns ==> r == Fail(NotLoaded)
      ensures !Unloaded() && "equipment_id" in table.value.columns ==>
        (r == Fail(NotFound) <==> forall i :: 0 <= i < |table.value.rows| ==> !HasId(table.value.rows[i], id))
      ensures !Unloaded() && "equipment_id" in table.value.columns
        && (exists i :: 0 <= i < |table.value.rows| && HasId(table.value.rows[i], id))
        ==> r.Ok?
      ensures r.Ok? ==> (exists i :: 0 <= i < |table.value.rows| && HasId(table.value.rows[i], id) &&
                           (forall j :: 0 <= j < i ==> !HasId(table.value.rows[j], id)) &&
                           r.value == DetailsOf(table.value.columns, table.value.rows[i], parse))
    {
      if Unloaded() {
        return Fail(NotLoaded);
      }
      var f := table.value;
      if "equipment_id" !in f.columns {
        return Fail(NotLoaded);
      }
      var k := FirstWithId(f.rows, id, 0);
      FirstWithIdLeast(f.rows, id, 0);
      if k.None? {
        return Fail(NotFound);
      }
      r := Ok(DetailsOf(f.columns, f.rows[k.value], parse));
    }

    /** `/search`: the rows whose labels, description or name match every
        search tag, all of them counted, the first `topK` returned. No `tags`
        value at all is a missing required parameter, which the framework
        answers with 422 before the handler runs. */
    method SearchEquipment(tags: seq<string>, topK: int) returns (r: Reply<SearchReply>)
      ensures |tags| == 0 || !(1 <= topK <= 100) ==> r == Fail(Unprocessable)
      ensures |tags| > 0 && 1 <= topK <= 100 && Unloaded() ==> r == Fail(NotLoaded)
      ensures |tags| > 0 && 1 <= topK <= 100 && !Unloaded() && SearchTags(tags) == {} ==> r == Fail(BadRequest)
      ensures |tags| > 0 && 1 <= topK <= 100 && !Unloaded() && SearchTags(tags) != {} ==>
        r == Ok(SearchReply(SearchTags(tags), |Hits(SearchTags(tags), table.value.rows, parse)|,
                            Take(Hits(SearchTags(tags), table.value.rows, parse), topK)))
    {
      if |tags| == 0 || !(1 <= topK <= 100) {
        return Fail(Unprocessable);
      }
      if Unloaded() {
        return Fail(NotLoaded);
      }
      var search := SearchTags(tags);
      if search == {} {
        return Fail(BadRequest);
      }
      var rows := table.value.rows;
      var results := CollectHits(search, rows, parse);
      HitsSortedAlready(search, rows, parse);
      var sorted := SortDesc(results, ScoreOf);
      r := Ok(SearchReply(search, |results|, Take(sorted, topK)));
    }
  }
}
