/** Work discovery, the resume ledger and the serialisation of results:
    directory names `<name>_<digits>`, the two view images of an item, the
    set of ids already in the output table, and the 16-column rows appended
    to it. */
module FileUtils {
  import opened Strings
  import opened Ordering
  import opened Frames
  import opened LabelModel

  // ---------------------------------------------------------------------
  // Reading a label cell back

  /** The three code points U+00EF U+00BC U+0152 the reader rewrites to ",":
      the UTF-8 bytes of the full-width comma U+FF0C decoded as Windows-1252.
      The full-width comma itself is not rewritten by this reader. */
  const Mojibake: string := "\U{EF}\U{BC}\U{152}"

  /** `parse_label_string`: strip, rewrite `Mojibake` to ",", split on ",",
      strip the pieces and keep the non-empty ones. */
  function ParseLabelString(s: string): (r: set<string>)
    ensures forall p :: p in r ==> p != "" && Trimmed(p) && ',' !in p
    ensures Trim(s) == "" ==> r == {}
  {
    LabelSet(s, Mojibake)
  }

  /** A label the writer can put in a cell and this reader gets back. */
  predicate Safe(x: string)
  {
    CellSafe(x, Mojibake)
  }

  lemma MojibakeSeparatorFree()
    ensures SeparatorFree(Mojibake)
  {
    assert Mojibake == ['\U{EF}', '\U{BC}', '\U{152}'];
  }

  /** Writer and reader are inverse: `parse_label_string(", ".join(xs)) == set(xs)`
      for labels that are non-empty, trimmed and hold neither comma form. */
  lemma ParseLabelStringOfJoin(xs: seq<string>)
    requires forall i :: 0 <= i < |xs| ==> Safe(xs[i])
    ensures ParseLabelString(Join(xs, ", ")) == Elems(xs)
  {
    MojibakeSeparatorFree();
    LabelSetOfJoin(xs, Mojibake);
  }

  /** A single safe label reads back as itself. */
  lemma ParseSingleLabel(x: string)
    requires Safe(x)
    ensures ParseLabelString(x) == {x}
  {
    LabelSetOfJoin([x], Mojibake);
    assert Elems([x]) == {x};
  }

  /** The real full-width comma does not separate labels in this reader. */
  lemma FullWidthCommaKept(a: string, b: string)
    requires a != "" && b != "" && Trimmed(a) && Trimmed(b)
    requires ',' !in a + b && FullWidthComma !in a + b && '\U{EF}' !in a + b
    ensures ParseLabelString(a + [FullWidthComma] + b) == {a + [FullWidthComma] + b}
  {
    var s := a + [FullWidthComma] + b;
    assert s[0] == a[0] && s[|s| - 1] == b[|b| - 1];
    assert forall c :: c in s ==> c in a + b || c == FullWidthComma;
    NotContainsFirstAbsent(s, Mojibake);
    ParseSingleLabel(s);
  }

  // ---------------------------------------------------------------------
  // Directory names

  /** What `re.match(r'^(.+?)_(\d+)$', d)` accepts with groups `name` and `id`:
      a name of at least one character and no line break, an underscore, one
      or more digits, and at most one line break at the very end, which `$`
      lets through. */
  predicate IsEquipmentDirName(d: string, name: string, id: string)
  {
    name != "" && '\n' !in name && AllDigits(id)
    && (d == name + "_" + id || d == name + "_" + id + "\n")
  }

  /** `parse_equipment_info`: the split at the last underscore of the name
      without its trailing line break. */
  function ParseEquipmentInfo(d: string): (r: Option<(string, string)>)
    ensures r.Some? ==> IsEquipmentDirName(d, r.value.0, r.value.1)
  {
    var t := if |d| > 0 && d[|d| - 1] == '\n' then d[..|d| - 1] else d;
    match LastIndexOf(t, '_')
    case None => None
    case Some(k) =>
      var name := t[..k];
      var id := t[k + 1..];
      if name != "" && '\n' !in name && AllDigits(id) then
        assert t == name + "_" + id;
        Some((name, id))
      else None
  }

  /** The last underscore of name + "_" + id, for an id without one, is the one in between. */
  lemma {:induction false} LastUnderscoreAt(name: string, id: string)
    requires '_' !in id
    ensures LastIndexOf(name + "_" + id, '_') == Some(|name|)
    decreases |id|
  {
    var t := name + "_" + id;
    if |id| == 0 {
      assert t[|t| - 1] == '_';
    } else {
      var init := id[..|id| - 1];
      assert t[|t| - 1] == id[|id| - 1] && id[|id| - 1] in id;
      assert t[..|t| - 1] == name + "_" + init;
      assert forall c :: c in init ==> c in id;
      LastUnderscoreAt(name, init);
    }
  }

  /** Every name the pattern accepts is found, with the same groups. */
  lemma ParseEquipmentInfoComplete(d: string, name: string, id: string)
    requires IsEquipmentDirName(d, name, id)
    ensures ParseEquipmentInfo(d) == Some((name, id))
  {
    var t := name + "_" + id;
    assert (if |d| > 0 && d[|d| - 1] == '\n' then d[..|d| - 1] else d) == t by {
      assert t[|t| - 1] == id[|id| - 1];
      if d != t { assert d[..|d| - 1] == t; }
    }
    assert t[..|name|] == name && t[|name| + 1..] == id;
    assert '_' !in id by { assert forall c :: c in id ==> IsDigit(c); }
    LastUnderscoreAt(name, id);
  }

  /** Both directions: the parser returns `(name, id)` exactly when the
      pattern accepts the name with those groups. */
  lemma ParseEquipmentInfoIff(d: string, name: string, id: string)
    ensures ParseEquipmentInfo(d) == Some((name, id)) <==> IsEquipmentDirName(d, name, id)
  {
    if IsEquipmentDirName(d, name, id) { ParseEquipmentInfoComplete(d, name, id); }
  }

  /** A glued name-and-id reads back as its parts. */
  lemma ParseEquipmentInfoOfJoin(name: string, id: string)
    requires name != "" && '\n' !in name && AllDigits(id)
    ensures ParseEquipmentInfo(name + "_" + id) == Some((name, id))
  {
    ParseEquipmentInfoComplete(name + "_" + id, name, id);
  }

  /** A name without an underscore is not an equipment directory. */
  lemma NoUnderscoreRejected()
    ensures ParseEquipmentInfo("Hat") == None
  {
    assert LastIndexOf("Hat", '_') == None;
  }

  /** The name group cannot be empty. */
  lemma EmptyNameRejected()
    ensures ParseEquipmentInfo("_123") == None
  {
    assert LastIndexOf("_123", '_') == Some(0) by {
      assert "_123"[0] == '_' && '_' !in "_123"[1..];
    }
  }

  /** The split is at the last underscore: the name may hold underscores. */
  lemma SplitAtLastUnderscore()
    ensures ParseEquipmentInfo("Iron_Helm_42") == Some(("Iron_Helm", "42"))
  {
    assert AllDigits("42");
    ParseEquipmentInfoOfJoin("Iron_Helm", "42");
    assert "Iron_Helm" + "_" + "42" == "Iron_Helm_42";
  }

  // ---------------------------------------------------------------------
  // The two view images of an item

  const FrontSuffix: string := "h0_p0.png"
  const BackSuffix: string := "h180_p0.png"

  /** The first name in glob order, that is listing order, matching `*suffix`. */
  function FirstMatch(names: seq<string>, suffix: string): (r: Option<string>)
    ensures r.None? <==> forall i :: 0 <= i < |names| ==> !EndsWith(names[i], suffix)
    ensures r.Some? ==> r.value in names && EndsWith(r.value, suffix)
  {
    if |names| == 0 then None
    else if EndsWith(names[0], suffix) then Some(names[0])
    else
      var r := FirstMatch(names[1..], suffix);
      assert forall i :: 1 <= i < |names| ==> names[i] == names[1..][i - 1];
      r
  }

  datatype Images = Images(front: Option<string>, back: Option<string>)

  /** `find_equipment_images`: the paths `dir/<name>` of the first `*h0_p0.png`
      and the first `*h180_p0.png` among the names of the directory. */
  function FindEquipmentImages(dir: string, names: seq<string>): (r: Images)
    ensures r.front.None? <==> forall i :: 0 <= i < |names| ==> !EndsWith(names[i], FrontSuffix)
    ensures r.back.None? <==> forall i :: 0 <= i < |names| ==> !EndsWith(names[i], BackSuffix)
    ensures r.front.Some? ==> exists n :: n in names && EndsWith(n, FrontSuffix) && r.front.value == dir + "/" + n
    ensures r.back.Some? ==> exists n :: n in names && EndsWith(n, BackSuffix) && r.back.value == dir + "/" + n
  {
    var f := FirstMatch(names, FrontSuffix);
    var b := FirstMatch(names, BackSuffix);
    Images(if f.Some? then Some(dir + "/" + f.value) else None,
           if b.Some? then Some(dir + "/" + b.value) else None)
  }

  /** No file name is both a front view and a back view. */
  lemma ViewsExclusive(n: string)
    ensures !(EndsWith(n, FrontSuffix) && EndsWith(n, BackSuffix))
  {
    if EndsWith(n, BackSuffix) {
      assert n[|n| - 9] == '8';
    }
  }

  // ---------------------------------------------------------------------
  // The resume ledger

  /** The id of a row, when its `equipment_id` cell is not missing. */
  function IdOf(row: Row): set<string>
  {
    var c := Get(row, "equipment_id");
    if c.Value? then {c.s} else {}
  }

  /** `set(df['equipment_id'].dropna().astype(str))` */
  function IdsIn(rows: seq<Row>): (r: set<string>)
    ensures forall x :: x in r <==> exists i :: 0 <= i < |rows| && Get(rows[i], "equipment_id") == Value(x)
  {
    if |rows| == 0 then {}
    else
      var init := rows[..|rows| - 1];
      var r := IdsIn(init) + IdOf(rows[|rows| - 1]);
      assert forall i :: 0 <= i < |init| ==> init[i] == rows[i];
      r
  }

  lemma IdsInConcat(a: seq<Row>, b: seq<Row>)
    ensures IdsIn(a + b) == IdsIn(a) + IdsIn(b)
  {
    forall x ensures x in IdsIn(a + b) <==> x in IdsIn(a) || x in IdsIn(b) {
      if x in IdsIn(a + b) {
        var i :| 0 <= i < |a + b| && Get((a + b)[i], "equipment_id") == Value(x);
        if i >= |a| { assert (a + b)[i] == b[i - |a|]; }
      }
      if x in IdsIn(b) {
        var i :| 0 <= i < |b| && Get(b[i], "equipment_id") == Value(x);
        assert (a + b)[|a| + i] == b[i];
      }
      if x in IdsIn(a) {
        var i :| 0 <= i < |a| && Get(a[i], "equipment_id") == Value(x);
        assert (a + b)[i] == a[i];
      }
    }
  }

  /** `load_processed_equipment_ids`: `present` says whether the file is
      there, `read` is what `pd.read_csv` gives (None when it raises). */
  function LoadProcessedEquipmentIds(present: bool, read: Option<Frame>): (r: set<string>)
    ensures !present || read.None? ==> r == {}
    ensures present && read.Some? && "equipment_id" !in read.value.columns ==> r == {}
    ensures present && read.Some? && "equipment_id" in read.value.columns ==>
      forall x :: x in r <==> exists i :: 0 <= i < |read.value.rows| && Get(read.value.rows[i], "equipment_id") == Value(x)
  {
    if !present then {}
    else match read
      case None => {}
      case Some(f) => if "equipment_id" in f.columns then IdsIn(f.rows) else {}
  }

  // ---------------------------------------------------------------------
  // Work discovery

  /** An entry of `root_path.iterdir()`. */
  datatype Entry = Entry(name: string, isDir: bool)

  /** `(equipment_dir, equipment_name, equipment_id)` */
  datatype WorkItem = WorkItem(dir: string, name: string, id: string)

  /** The work item an entry yields, if it is a directory whose name parses
      and whose id is not in the ledger. */
  predicate Yields(root: string, e: Entry, processed: set<string>, w: WorkItem)
  {
    e.isDir && ParseEquipmentInfo(e.name) == Some((w.name, w.id))
    && w.id !in processed && w.dir == root + "/" + e.name
  }

  function CandidateOf(root: string, e: Entry, processed: set<string>): (r: seq<WorkItem>)
    ensures |r| <= 1
    ensures forall w :: w in r <==> Yields(root, e, processed, w)
  {
    if !e.isDir then []
    else match ParseEquipmentInfo(e.name)
      case None => []
      case Some(info) => if info.1 !in processed then [WorkItem(root + "/" + e.name, info.0, info.1)] else []
  }

  /** The loop over `root_path.iterdir()`: the accepted entries in listing order. */
  function Candidates(root: string, entries: seq<Entry>, processed: set<string>): (r: seq<WorkItem>)
    ensures forall w :: w in r <==> exists i :: 0 <= i < |entries| && Yields(root, entries[i], processed, w)
  {
    if |entries| == 0 then []
    else
      var init := entries[..|entries| - 1];
      assert forall i :: 0 <= i < |init| ==> init[i] == entries[i];
      var prev := Candidates(root, init, processed);
      var last := CandidateOf(root, entries[|entries| - 1], processed);
      CandidatesStep(root, entries, processed, prev, last);
      prev + last
  }

  lemma CandidatesStep(root: string, entries: seq<Entry>, processed: set<string>, prev: seq<WorkItem>, last: seq<WorkItem>)
    requires |entries| > 0
    requires forall w :: w in prev <==> exists i :: 0 <= i < |entries| - 1 && Yields(root, entries[i], processed, w)
    requires forall w :: w in last <==> Yields(root, entries[|entries| - 1], processed, w)
    ensures forall w :: w in prev + last <==> exists i :: 0 <= i < |entries| && Yields(root, entries[i], processed, w)
  {
  }

  /** Ascending by id as a string (so "10" comes before "9"). */
  predicate SortedById(s: seq<WorkItem>)
  {
    forall i, j :: 0 <= i < j < |s| ==> !Less(s[j].id, s[i].id)
  }

  /** Ids compare as strings, not as numbers. */
  lemma IdsCompareAsStrings()
    ensures Less("10", "9") && !Less("9", "10")
  {
  }

  /** The items with a given id, in order. */
  function WithId(s: seq<WorkItem>, id: string): seq<WorkItem>
  {
    if |s| == 0 then [] else (if s[0].id == id then [s[0]] else []) + WithId(s[1..], id)
  }

  lemma {:induction false} WithIdConcat(a: seq<WorkItem>, b: seq<WorkItem>, id: string)
    ensures WithId(a + b, id) == WithId(a, id) + WithId(b, id)
  {
    if |a| > 0 {
      assert (a + b)[1..] == a[1..] + b;
      WithIdConcat(a[1..], b, id);
    } else {
      assert a + b == b;
    }
  }

  lemma {:induction false} WithIdAbsent(s: seq<WorkItem>, id: string)
    requires forall i :: 0 <= i < |s| ==> s[i].id != id
    ensures WithId(s, id) == []
  {
    if |s| > 0 { WithIdAbsent(s[1..], id); }
  }

  /** Puts `x` after every item whose id is not above its own. */
  function InsertById(x: WorkItem, s: seq<WorkItem>): seq<WorkItem>
  {
    if |s| == 0 then [x]
    else if Less(x.id, s[0].id) then [x] + s
    else [s[0]] + InsertById(x, s[1..])
  }

  lemma {:induction false} InsertByIdMultiset(x: WorkItem, s: seq<WorkItem>)
    ensures multiset(InsertById(x, s)) == multiset(s) + multiset{x}
  {
    if |s| > 0 && !Less(x.id, s[0].id) {
      InsertByIdMultiset(x, s[1..]);
      assert s == [s[0]] + s[1..];
    }
  }

  /** In a sorted list, every id after the first is at least the first. */
  lemma AboveFirst(x: string, s: seq<WorkItem>)
    requires SortedById(s) && |s| > 0 && Less(x, s[0].id)
    ensures forall j :: 0 <= j < |s| ==> Less(x, s[j].id)
  {
    forall j | 0 <= j < |s| ensures Less(x, s[j].id) {
      if j > 0 && s[0].id != s[j].id {
        LessTotal(s[0].id, s[j].id);
        LessTransitive(x, s[0].id, s[j].id);
      }
    }
  }

  lemma {:induction false} InsertByIdSorted(x: WorkItem, s: seq<WorkItem>)
    requires SortedById(s)
    ensures SortedById(InsertById(x, s))
  {
    if |s| > 0 {
      if Less(x.id, s[0].id) {
        AboveFirst(x.id, s);
        forall j | 0 <= j < |s| ensures !Less(s[j].id, x.id) { LessAsymmetric(x.id, s[j].id); }
      } else {
        InsertByIdSorted(x, s[1..]);
        assert forall j :: 0 <= j < |s[1..]| ==> s[1..][j] == s[j + 1];
        InsertByIdNoneBelow(x, s[1..], s[0].id);
      }
    }
  }

  /** No id of `s` is below `lo`. */
  predicate NoneBelow(s: seq<WorkItem>, lo: string)
  {
    forall j :: 0 <= j < |s| ==> !Less(s[j].id, lo)
  }

  lemma {:induction false} InsertByIdNoneBelow(x: WorkItem, s: seq<WorkItem>, lo: string)
    requires NoneBelow(s, lo) && !Less(x.id, lo)
    ensures NoneBelow(InsertById(x, s), lo)
  {
    if |s| > 0 && !Less(x.id, s[0].id) {
      assert forall j :: 0 <= j < |s[1..]| ==> s[1..][j] == s[j + 1];
      InsertByIdNoneBelow(x, s[1..], lo);
    }
  }

  /** The inserted item comes after every item with its id. */
  lemma {:induction false} InsertByIdWithId(x: WorkItem, s: seq<WorkItem>, id: string)
    requires SortedById(s)
    ensures WithId(InsertById(x, s), id) == WithId(s, id) + (if x.id == id then [x] else [])
  {
    if |s| == 0 {
    } else if Less(x.id, s[0].id) {
      AboveFirst(x.id, s);
      forall j | 0 <= j < |s| ensures s[j].id != x.id { LessIrreflexive(x.id); }
      WithIdAbsent(s, x.id);
      assert ([x] + s)[1..] == s;
    } else {
      InsertByIdWithId(x, s[1..], id);
      assert ([s[0]] + InsertById(x, s[1..]))[1..] == InsertById(x, s[1..]);
    }
  }

  /** One step of the sort: inserting the last item into the sorted
      prefix keeps the order, the items, and each id's own order. */
  lemma SortStep(s: seq<WorkItem>, sorted: seq<WorkItem>)
    requires |s| > 0 && SortedById(sorted)
    requires multiset(sorted) == multiset(s[..|s| - 1])
    requires forall id :: WithId(sorted, id) == WithId(s[..|s| - 1], id)
    ensures SortedById(InsertById(s[|s| - 1], sorted))
    ensures multiset(InsertById(s[|s| - 1], sorted)) == multiset(s)
    ensures forall id :: WithId(InsertById(s[|s| - 1], sorted), id) == WithId(s, id)
  {
    var init, last := s[..|s| - 1], s[|s| - 1];
    InsertByIdSorted(last, sorted);
    InsertByIdMultiset(last, sorted);
    assert s == init + [last];
    forall id ensures WithId(InsertById(last, sorted), id) == WithId(s, id) {
      InsertByIdWithId(last, sorted, id);
      WithIdConcat(init, [last], id);
    }
  }

  /** `sorted(items, key=lambda x: x[2])`: a stable sort by id. */
  function SortById(s: seq<WorkItem>): (r: seq<WorkItem>)
    ensures SortedById(r)
    ensures multiset(r) == multiset(s)
    ensures forall id :: WithId(r, id) == WithId(s, id)
  {
    if |s| == 0 then []
    else
      var sorted := SortById(s[..|s| - 1]);
      SortStep(s, sorted);
      InsertById(s[|s| - 1], sorted)
  }

  /** `get_equipment_directories`: the directories that parse and are not
      yet processed, stably sorted by id compared as strings. */
  method GetEquipmentDirectories(root: string, entries: seq<Entry>, processed: set<string>)
    returns (r: seq<WorkItem>)
    ensures forall w :: w in r <==> exists i :: 0 <= i < |entries| && Yields(root, entries[i], processed, w)
    ensures multiset(r) == multiset(Candidates(root, entries, processed))
    ensures SortedById(r)
    ensures forall id :: WithId(r, id) == WithId(Candidates(root, entries, processed), id)
    ensures r == SortById(Candidates(root, entries, processed))
  {
    var found: seq<WorkItem> := [];
    var i := 0;
    while i < |entries|
      invariant 0 <= i <= |entries|
      invariant found == Candidates(root, entries[..i], processed)
    {
      var e := entries[i];
      assert Candidates(root, entries[..i + 1], processed)
        == Candidates(root, entries[..i], processed) + CandidateOf(root, e, processed) by {
        assert entries[..i + 1][..i] == entries[..i];
      }
      if e.isDir {
        var info := ParseEquipmentInfo(e.name);
        if info.Some? {
          var (name, id) := info.value;
          if id !in processed {
            found := found + [WorkItem(root + "/" + e.name, name, id)];
          }
        }
      }
      i := i + 1;
    }
    assert entries[..i] == entries;
    r := SortById(found);
    SameMembers(r, found);
  }

  lemma SameMembers(a: seq<WorkItem>, b: seq<WorkItem>)
    requires multiset(a) == multiset(b)
    ensures forall w :: w in a <==> w in b
  {
    forall w ensures w in a <==> w in b {
      assert w in a <==> w in multiset(a);
      assert w in b <==> w in multiset(b);
    }
  }

  // ---------------------------------------------------------------------
  // Serialisation

  /** The columns of the output table, in order. */
  const Fieldnames: seq<string> := [
    "equipment_id", "equipment_name", "front_image", "back_image",
    "colors", "materials", "shapes", "decorations", "styles", "effects",
    "appearance_looks_like", "appearance_description", "custom_tags", "all_labels",
    "error", "timestamp"]

  /** The per-item result the labeler saves; `error` is absent unless some
      image failed. */
  datatype ItemResult = ItemResult(
    equipmentId: string,
    equipmentName: string,
    frontImage: string,
    backImage: string,
    labels: Labels,
    timestamp: string,
    error: Option<string>)

  /** A list field joined with ", ", a string field as it is. */
  function CellText(v: TextOrList): string
  {
    match v
    case List(xs) => Join(xs, ", ")
    case Text(s) => s
  }

  /** The categories `cs` concatenated in order, repetitions kept. */
  function Concat(l: Labels, cs: seq<Category>): seq<string>
  {
    if |cs| == 0 then [] else Concat(l, cs[..|cs| - 1]) + Field(l, cs[|cs| - 1])
  }

  /** The dictionary `flatten_labels` returns: one field per column of `Fieldnames`. */
  datatype CsvRow = CsvRow(
    equipmentId: string,
    equipmentName: string,
    frontImage: string,
    backImage: string,
    colors: string,
    materials: string,
    shapes: string,
    decorations: string,
    styles: string,
    effects: string,
    looksLike: string,
    description: string,
    customTags: string,
    allLabels: string,
    error: string,
    timestamp: string)

  /** The cell of a category. */
  function CategoryCell(row: CsvRow, c: Category): string
  {
    match c
    case Colors => row.colors
    case Materials => row.materials
    case Shapes => row.shapes
    case Decorations => row.decorations
    case Styles => row.styles
    case Effects => row.effects
  }

  /** The fields `csv.DictWriter` writes for a row, in the order of `Fieldnames`. */
  function Record(row: CsvRow): (r: seq<string>)
    ensures |r| == |Fieldnames|
  {
    [row.equipmentId, row.equipmentName, row.frontImage, row.backImage,
     row.colors, row.materials, row.shapes, row.decorations, row.styles, row.effects,
     row.looksLike, row.description, row.customTags, row.allLabels,
     row.error, row.timestamp]
  }

  /** Each column of the table holds the field of the same name. */
  lemma RecordColumns(row: CsvRow)
    ensures Fieldnames[0] == "equipment_id" && Record(row)[0] == row.equipmentId
    ensures Fieldnames[1] == "equipment_name" && Record(row)[1] == row.equipmentName
    ensures Fieldnames[2] == "front_image" && Record(row)[2] == row.frontImage
    ensures Fieldnames[3] == "back_image" && Record(row)[3] == row.backImage
    ensures Fieldnames[4] == Key(Colors) && Record(row)[4] == row.colors
    ensures Fieldnames[9] == Key(Effects) && Record(row)[9] == row.effects
    ensures Fieldnames[10] == "appearance_looks_like" && Record(row)[10] == row.looksLike
    ensures Fieldnames[11] == "appearance_description" && Record(row)[11] == row.description
    ensures Fieldnames[12] == "custom_tags" && Record(row)[12] == row.customTags
    ensures Fieldnames[13] == "all_labels" && Record(row)[13] == row.allLabels
    ensures Fieldnames[14] == "error" && Record(row)[14] == row.error
    ensures Fieldnames[15] == "timestamp" && Record(row)[15] == row.timestamp
    ensures forall j :: 4 <= j < 10 ==> Fieldnames[j] == Key(Categories[j - 4]) && Record(row)[j] == CategoryCell(row, Categories[j - 4])
  {
  }

  /** The row `flatten_labels` returns. */
  function FlatRow(res: ItemResult): CsvRow
  {
    var l := res.labels;
    CsvRow(res.equipmentId, res.equipmentName, res.frontImage, res.backImage,
      Join(l.colors, ", "), Join(l.materials, ", "), Join(l.shapes, ", "),
      Join(l.decorations, ", "), Join(l.styles, ", "), Join(l.effects, ", "),
      CellText(l.looksLike), l.description, CellText(l.customTags),
      Join(Concat(l, Categories), ", "),
      if res.error.Some? then res.error.value else "",
      res.timestamp)
  }

  /** The loop over the categories gathers them in their fixed order. */
  lemma ConcatCategories(l: Labels)
    ensures Concat(l, Categories) == AllCategoryLabels(l)
  {
    var c := Categories;
    assert Concat(l, c[..1]) == l.colors by { assert c[..1][..0] == []; }
    assert Concat(l, c[..2]) == l.colors + l.materials by { assert c[..2][..1] == c[..1]; }
    assert Concat(l, c[..3]) == l.colors + l.materials + l.shapes by { assert c[..3][..2] == c[..2]; }
    assert Concat(l, c[..4]) == l.colors + l.materials + l.shapes + l.decorations by { assert c[..4][..3] == c[..3]; }
    assert Concat(l, c[..5]) == l.colors + l.materials + l.shapes + l.decorations + l.styles by { assert c[..5][..4] == c[..4]; }
    assert c[..6][..5] == c[..5] && c[..6] == c;
  }

  /** `all_labels` is the join of the six categories in their fixed order
      without removing repetitions, each category cell is the join of its
      list, and the error cell is empty when the result has no error. */
  lemma FlatRowCells(res: ItemResult)
    ensures FlatRow(res).allLabels == Join(AllCategoryLabels(res.labels), ", ")
    ensures forall c :: CategoryCell(FlatRow(res), c) == Join(Field(res.labels, c), ", ")
    ensures res.error.None? ==> FlatRow(res).error == ""
    ensures res.error.Some? ==> FlatRow(res).error == res.error.value
  {
    var row := FlatRow(res);
    ConcatCategories(res.labels);
    assert row.allLabels == Join(AllCategoryLabels(res.labels), ", ");
    forall c ensures CategoryCell(row, c) == Join(Field(res.labels, c), ", ") {
      match c
      case Colors =>
      case Materials =>
      case Shapes =>
      case Decorations =>
      case Styles =>
      case Effects =>
    }
  }

  /** A category cell reads back as the set of its labels. */
  lemma CategoryCellReadsBack(res: ItemResult, c: Category)
    requires forall x :: x in Field(res.labels, c) ==> Safe(x)
    ensures ParseLabelString(CategoryCell(FlatRow(res), c)) == Elems(Field(res.labels, c))
  {
    var xs := Field(res.labels, c);
    assert forall i :: 0 <= i < |xs| ==> Safe(xs[i]);
    assert CategoryCell(FlatRow(res), c) == Join(xs, ", ");
    ParseLabelStringOfJoin(xs);
  }

  lemma FieldInAll(l: Labels, c: Category)
    ensures forall x :: x in Field(l, c) ==> x in AllCategoryLabels(l)
  {
  }

  /** The `all_labels` cell reads back as the set of all labels. */
  lemma AllLabelsReadBack(res: ItemResult)
    requires forall x :: x in AllCategoryLabels(res.labels) ==> Safe(x)
    ensures ParseLabelString(FlatRow(res).allLabels) == Elems(AllCategoryLabels(res.labels))
  {
    var all := AllCategoryLabels(res.labels);
    assert FlatRow(res).allLabels == Join(all, ", ") by { ConcatCategories(res.labels); }
    assert forall i :: 0 <= i < |all| ==> Safe(all[i]);
    ParseLabelStringOfJoin(all);
  }

  /** Reading the row back: each category cell and the `all_labels` cell give
      the labels that went in, when the labels are safe to write. */
  lemma FlatRowReadsBack(res: ItemResult)
    requires forall x :: x in AllCategoryLabels(res.labels) ==> Safe(x)
    ensures ParseLabelString(FlatRow(res).allLabels) == Elems(AllCategoryLabels(res.labels))
    ensures forall c :: ParseLabelString(CategoryCell(FlatRow(res), c)) == Elems(Field(res.labels, c))
  {
    AllLabelsReadBack(res);
    forall c ensures ParseLabelString(CategoryCell(FlatRow(res), c)) == Elems(Field(res.labels, c)) {
      FieldInAll(res.labels, c);
      CategoryCellReadsBack(res, c);
    }
  }

  /** `flatten_labels`, filling the row key by key and extending `all_labels`
      category by category. */
  method FlattenLabels(res: ItemResult) returns (row: CsvRow)
    ensures row == FlatRow(res)
  {
    row := CsvRow(res.equipmentId, res.equipmentName, res.frontImage, res.backImage,
      "", "", "", "", "", "", "", "", "", "", "", res.timestamp);
    var l := res.labels;
    row := row.(colors := Join(l.colors, ", "));
    row := row.(materials := Join(l.materials, ", "));
    row := row.(shapes := Join(l.shapes, ", "));
    row := row.(decorations := Join(l.decorations, ", "));
    row := row.(styles := Join(l.styles, ", "));
    row := row.(effects := Join(l.effects, ", "));
    row := row.(looksLike := CellText(l.looksLike));
    row := row.(description := l.description);
    row := row.(customTags := CellText(l.customTags));
    var all: seq<string> := [];
    for i := 0 to |Categories|
      invariant all == Concat(l, Categories[..i])
    {
      assert Categories[..i + 1][..i] == Categories[..i];
      all := all + Field(l, Categories[i]);
    }
    assert Categories[..|Categories|] == Categories;
    row := row.(allLabels := Join(all, ", "));
    if res.error.Some? {
      row := row.(error := res.error.value);
    } else {
      row := row.(error := "");
    }
  }

  /** The lines of the results, one record each, in order. */
  function Records(results: seq<ItemResult>): (r: seq<seq<string>>)
    ensures |r| == |results|
    ensures forall i {:trigger r[i]} :: 0 <= i < |r| ==> r[i] == Record(FlatRow(results[i]))
  {
    seq(|results|, i requires 0 <= i < |results| => Record(FlatRow(results[i])))
  }

  /** The output table as a file: whether it exists, and its lines of fields. */
  class CsvFile {
    var present: bool
    var lines: seq<seq<string>>

    constructor(present: bool, lines: seq<seq<string>>)
      ensures this.present == present && this.lines == lines
    {
      this.present := present;
      this.lines := lines;
    }

    /** A table as the pipeline writes it: no file, or a header line and records. */
    predicate Valid()
      reads this
    {
      (!present ==> lines == []) && (present ==> |lines| > 0 && lines[0] == Fieldnames)
    }

    /** `save_results_to_csv`: nothing for no results; otherwise the header
        when the file is new, then the flattened rows, appended in order
        after the lines already there. */
    method SaveResultsToCsv(results: seq<ItemResult>)
      modifies this
      ensures |results| == 0 ==> present == old(present) && lines == old(lines)
      ensures |results| > 0 ==> present && lines == old(lines) + (if old(present) then [] else [Fieldnames]) + Records(results)
      ensures old(Valid()) ==> Valid()
    {
      if |results| == 0 {
        return;
      }
      ghost var before := lines;
      ghost var header := if present then [] else [Fieldnames];
      var records: seq<seq<string>> := [];
      for i := 0 to |results|
        invariant |records| == i
        invariant forall j :: 0 <= j < i ==> records[j] == Record(FlatRow(results[j]))
        invariant lines == before && present == old(present)
      {
        var row := FlattenLabels(results[i]);
        records := records + [Record(row)];
      }
      assert records == Records(results);
      var fileExists := present;
      if !fileExists {
        lines := lines + [Fieldnames];
      }
      assert lines == before + header;
      lines := lines + records;
      present := true;
    }
  }

  // ---------------------------------------------------------------------
  // Reading the table back for the resume ledger

  /** A field as `read_csv` sees it: an empty or absent field is NaN. */
  function CellOf(line: seq<string>, j: nat): Cell
  {
    if j < |line| && line[j] != "" then Value(line[j]) else NaN
  }

  /** A line keyed by the header; the first of two equal column names wins. */
  function RowFrom(header: seq<string>, line: seq<string>, j: nat): Row
    decreases |header| - j
  {
    if j >= |header| then map[] else RowFrom(header, line, j + 1)[header[j] := CellOf(line, j)]
  }

  /** The frame an ideal reader makes of the lines: header, then one row per
      record; an empty file cannot be read. */
  function ReadBack(lines: seq<seq<string>>): Option<Frame>
  {
    if |lines| == 0 then None
    else Some(Frame(Elems(lines[0]), seq(|lines| - 1, i requires 0 <= i < |lines| - 1 => RowFrom(lines[0], lines[i + 1], 0))))
  }

  /** The ids `load_processed_equipment_ids` finds in the lines. */
  function Ledger(present: bool, lines: seq<seq<string>>): set<string>
  {
    LoadProcessedEquipmentIds(present, ReadBack(lines))
  }

  /** The non-empty ids of some results. */
  function IdsOfResults(results: seq<ItemResult>): set<string>
  {
    set i | 0 <= i < |results| && results[i].equipmentId != "" :: results[i].equipmentId
  }

  lemma RecordRowIds(results: seq<ItemResult>)
    ensures IdsIn(seq(|results|, i requires 0 <= i < |results| => RowFrom(Fieldnames, Records(results)[i], 0)))
      == IdsOfResults(results)
  {
    var rows := seq(|results|, i requires 0 <= i < |results| => RowFrom(Fieldnames, Records(results)[i], 0));
    forall i | 0 <= i < |results|
      ensures Get(rows[i], "equipment_id") == (if results[i].equipmentId != "" then Value(results[i].equipmentId) else NaN)
    {
      assert Records(results)[i][0] == results[i].equipmentId;
    }
  }

  /** Appending records appends rows to what is read back. */
  lemma ReadBackAppend(lines: seq<seq<string>>, recs: seq<seq<string>>)
    requires |lines| > 0
    ensures ReadBack(lines + recs).Some?
    ensures ReadBack(lines + recs).value.columns == Elems(lines[0])
    ensures ReadBack(lines + recs).value.rows
      == ReadBack(lines).value.rows + seq(|recs|, i requires 0 <= i < |recs| => RowFrom(lines[0], recs[i], 0))
  {
    var a := ReadBack(lines + recs).value.rows;
    var b := ReadBack(lines).value.rows + seq(|recs|, i requires 0 <= i < |recs| => RowFrom(lines[0], recs[i], 0));
    assert (lines + recs)[0] == lines[0];
    assert |a| == |b|;
    forall i | 0 <= i < |a| ensures a[i] == b[i] {
      if i < |lines| - 1 {
        assert (lines + recs)[i + 1] == lines[i + 1];
      } else {
        assert (lines + recs)[i + 1] == recs[i + 1 - |lines|];
      }
    }
  }

  /** Resuming works: after a save, the ledger a fresh start reads is the old
      ledger plus the ids just saved. */
  lemma LedgerAfterSave(present: bool, lines: seq<seq<string>>, results: seq<ItemResult>)
    requires (!present ==> lines == []) && (present ==> |lines| > 0 && lines[0] == Fieldnames)
    ensures Ledger(true, lines + (if present then [] else [Fieldnames]) + Records(results))
      == Ledger(present, lines) + IdsOfResults(results)
  {
    var head := lines + (if present then [] else [Fieldnames]);
    assert head[0] == Fieldnames;
    AppendedIds(head, results);
    if present {
      assert head == lines;
    } else {
      assert ReadBack(head).value.rows == [];
    }
  }

  /** An output file that exists but is empty gets no header, so the one
      record saved into it is read back as the header: a fresh start finds
      no ids in it and labels the item again. */
  lemma EmptyFileForgets(res: ItemResult)
    ensures Ledger(true, [] + Records([res])) == {}
  {
    var lines := [] + Records([res]);
    assert |lines| == 1;
    assert ReadBack(lines).value.rows == [];
  }

  /** The ids read back from a table with rows appended are the ids read
      before and the ids of the appended results. */
  lemma AppendedIds(head: seq<seq<string>>, results: seq<ItemResult>)
    requires |head| > 0 && head[0] == Fieldnames
    ensures ReadBack(head + Records(results)).Some? && ReadBack(head).Some?
    ensures "equipment_id" in ReadBack(head + Records(results)).value.columns
    ensures Ledger(true, head + Records(results)) == IdsIn(ReadBack(head).value.rows) + IdsOfResults(results)
  {
    var recs := Records(results);
    var newRows := seq(|results|, i requires 0 <= i < |results| => RowFrom(Fieldnames, recs[i], 0));
    RecordRowIds(results);
    assert "equipment_id" in Elems(Fieldnames);
    ReadBackAppend(head, recs);
    assert ReadBack(head + recs).value.rows == ReadBack(head).value.rows + newRows;
    IdsInConcat(ReadBack(head).value.rows, newRows);
  }
}
