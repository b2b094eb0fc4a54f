/** The labeling driver: merging the labels of the two views of an item
    (`merge_labels`) and `FFXIVAutoLabeler`, which labels every new item
    directory of a root, one item at a time, and appends each finished item
    to the output table. */
module Labeler {
  import opened Strings
  import opened Ordering
  import opened LabelModel
  import opened FileUtils
  import opened ApiClient

  // ---------------------------------------------------------------------
  // merge_labels

  /** A field that may be a string: a non-empty string is a one-element
      list, the empty string the empty list. */
  function AsList(v: TextOrList): seq<string>
  {
    match v
    case List(xs) => xs
    case Text(s) => if s != "" then [s] else []
  }

  /** The full-width semicolon that joins two descriptions. */
  const DescriptionSeparator: string := "\U{FF1B}"

  function MergeDescription(d1: string, d2: string): string
  {
    if d1 != "" && d2 != "" then d1 + DescriptionSeparator + d2
    else if d1 != "" then d1
    else d2
  }

  /** `sorted(list(set(xs) | set(ys)))` */
  function Union(xs: seq<string>, ys: seq<string>): (r: seq<string>)
    ensures StrictlySorted(r)
    ensures Elems(r) == Elems(xs) + Elems(ys)
  {
    ElemsConcat(xs, ys);
    SortedSet(xs + ys)
  }

  /** `merge_labels`: every category, and the two list-like fields, become
      the sorted union of both sides; the descriptions are joined. */
  function MergeLabels(a: Labels, b: Labels): (r: Labels)
    ensures StrictlySorted(r.colors) && Elems(r.colors) == Elems(a.colors) + Elems(b.colors)
    ensures StrictlySorted(r.materials) && Elems(r.materials) == Elems(a.materials) + Elems(b.materials)
    ensures StrictlySorted(r.shapes) && Elems(r.shapes) == Elems(a.shapes) + Elems(b.shapes)
    ensures StrictlySorted(r.decorations) && Elems(r.decorations) == Elems(a.decorations) + Elems(b.decorations)
    ensures StrictlySorted(r.styles) && Elems(r.styles) == Elems(a.styles) + Elems(b.styles)
    ensures StrictlySorted(r.effects) && Elems(r.effects) == Elems(a.effects) + Elems(b.effects)
    ensures r.looksLike.List? && StrictlySorted(r.looksLike.items)
    ensures Elems(r.looksLike.items) == Elems(AsList(a.looksLike)) + Elems(AsList(b.looksLike))
    ensures r.customTags.List? && StrictlySorted(r.customTags.items)
    ensures Elems(r.customTags.items) == Elems(AsList(a.customTags)) + Elems(AsList(b.customTags))
    ensures a.description != "" && b.description != "" ==> r.description == a.description + "\U{FF1B}" + b.description
    ensures a.description != "" && b.description == "" ==> r.description == a.description
    ensures a.description == "" ==> r.description == b.description
  {
    Labels(
      Union(a.colors, b.colors), Union(a.materials, b.materials), Union(a.shapes, b.shapes),
      Union(a.decorations, b.decorations), Union(a.styles, b.styles), Union(a.effects, b.effects),
      List(Union(AsList(a.looksLike), AsList(b.looksLike))),
      MergeDescription(a.description, b.description),
      List(Union(AsList(a.customTags), AsList(b.customTags))))
  }

  /** Every category of a merge is the sorted union of that category on
      both sides. */
  lemma MergeCategory(a: Labels, b: Labels, c: Category)
    ensures StrictlySorted(Field(MergeLabels(a, b), c))
    ensures Elems(Field(MergeLabels(a, b), c)) == Elems(Field(a, c)) + Elems(Field(b, c))
  {
  }

  lemma UnionCommutes(xs: seq<string>, ys: seq<string>)
    ensures Union(xs, ys) == Union(ys, xs)
  {
    SortedUnique(Union(xs, ys), Union(ys, xs));
  }

  /** Adding nothing to a sorted set leaves it as it is. */
  lemma UnionWithNothing(xs: seq<string>)
    requires StrictlySorted(xs)
    ensures Union(xs, []) == xs
  {
    SortedUnique(Union(xs, []), xs);
  }

  /** Merging is symmetric in everything but the description, and the
      descriptions agree too when one side has none. */
  lemma MergeCommutes(a: Labels, b: Labels)
    ensures MergeLabels(a, b).(description := "") == MergeLabels(b, a).(description := "")
    ensures a.description == "" || b.description == "" ==> MergeLabels(a, b) == MergeLabels(b, a)
  {
    UnionCommutes(a.colors, b.colors);
    UnionCommutes(a.materials, b.materials);
    UnionCommutes(a.shapes, b.shapes);
    UnionCommutes(a.decorations, b.decorations);
    UnionCommutes(a.styles, b.styles);
    UnionCommutes(a.effects, b.effects);
    UnionCommutes(AsList(a.looksLike), AsList(b.looksLike));
    UnionCommutes(AsList(a.customTags), AsList(b.customTags));
  }

  /** Merging a merged result with `{}` changes nothing. */
  lemma MergeWithNothing(a: Labels, b: Labels)
    ensures MergeLabels(MergeLabels(a, b), NoLabels) == MergeLabels(a, b)
  {
    var m := MergeLabels(a, b);
    UnionWithNothing(m.colors);
    UnionWithNothing(m.materials);
    UnionWithNothing(m.shapes);
    UnionWithNothing(m.decorations);
    UnionWithNothing(m.styles);
    UnionWithNothing(m.effects);
    UnionWithNothing(m.looksLike.items);
    UnionWithNothing(m.customTags.items);
  }

  // ---------------------------------------------------------------------
  // One item

  /** One run of `label_image` from chat call `n` on: the result and the
      next unused chat call. */
  function LabelRun(svc: Service, n: nat): (LabelResult, nat)
  {
    Retry(Attempts(svc), n, 1, None, "")
  }

  function Runner(svc: Service): nat -> (LabelResult, nat)
  {
    (n: nat) => LabelRun(svc, n)
  }

  /** What the labeler relies on about a run of `label_image`: it makes one
      to three chat calls, and a failed run leaves `{}` and a non-empty error. */
  ghost predicate RunnerShape(run: nat -> (LabelResult, nat))
  {
    forall n: nat :: n < run(n).1 <= n + MaxAttempts
      && (run(n).0.error.Some? ==> run(n).0.labels == EmptyObject && run(n).0.error.value != "")
  }

  lemma RunnerShapeHolds(svc: Service)
    ensures RunnerShape(Runner(svc))
  {
    forall n: nat ensures n < Runner(svc)(n).1 <= n + MaxAttempts
      && (Runner(svc)(n).0.error.Some? ==> Runner(svc)(n).0.labels == EmptyObject && Runner(svc)(n).0.error.value != "")
    {
      RetryCalls(Attempts(svc), n, 1, None, "");
      RetryFailureShape(Attempts(svc), n, 1, None, "");
    }
  }

  /** What a view that has no image contributes: `{}` and no error. */
  const NotRun: LabelResult := LabelResult(EmptyObject, "", None)

  /** The labels a view contributes: its labels when they are truthy, `{}` otherwise. */
  function SideLabels(r: LabelResult): JsonValue
  {
    if JsonTruthy(r.labels) then r.labels else EmptyObject
  }

  const FrontError := "Front image error: "
  const BackError := "Back image error: "

  /** The part of the error message a view contributes, after `prefix`. */
  function SideMessage(prefix: string, r: LabelResult): string
  {
    if !JsonTruthy(r.labels) && r.error.Some? && r.error.value != "" then
      prefix + r.error.value + "; "
    else ""
  }

  /** The message of both views, front first. */
  function ErrorMessage(fr: LabelResult, br: LabelResult): string
  {
    SideMessage(FrontError, fr) + SideMessage(BackError, br)
  }

  /** The `error` entry of a result: the stripped message, when there is one. */
  function StoredError(fr: LabelResult, br: LabelResult): Option<string>
  {
    var msg := ErrorMessage(fr, br);
    if msg != "" then Some(Trim(msg)) else None
  }

  /** What happens to one work item: skipped for want of images, stopped by
      an exception, or finished with the result that is saved. */
  datatype ItemOutcome = Skipped | Raised | Done(result: ItemResult)

  function PathOrEmpty(p: Option<string>): string
  {
    if p.Some? then p.value else ""
  }

  /** The two label runs of an item, front view first, each only when the
      view has an image; and the next unused chat call. */
  function Runs(run: nat -> (LabelResult, nat), img: Images, calls: nat): (LabelResult, LabelResult, nat)
  {
    var (fr, c1) := if img.front.Some? then run(calls) else (NotRun, calls);
    var (br, c2) := if img.back.Some? then run(c1) else (NotRun, c1);
    (fr, br, c2)
  }

  /** `process_equipment` on the file names `names` of the item's
      directory, with chat calls from `calls` on; the outcome and the next
      unused chat call. A truthy reply that is not an object makes
      `merge_labels` raise. */
  function ProcessSpec(run: nat -> (LabelResult, nat), names: seq<string>, calls: nat, item: WorkItem, stamp: string): (ItemOutcome, nat)
  {
    var img := FindEquipmentImages(item.dir, names);
    if img.front.None? && img.back.None? then (Skipped, calls)
    else
      var (fr, br, next) := Runs(run, img, calls);
      (Finish(item, img, fr, br, stamp), next)
  }

  /** The outcome of an item once its views have run. */
  function Finish(item: WorkItem, img: Images, fr: LabelResult, br: LabelResult, stamp: string): ItemOutcome
  {
    var fl := SideLabels(fr);
    var bl := SideLabels(br);
    if fl.Other? || bl.Other? then Raised
    else
      Done(ItemResult(item.id, item.name, PathOrEmpty(img.front), PathOrEmpty(img.back),
        MergeLabels(fl.labels, bl.labels), stamp, StoredError(fr, br)))
  }

  /** An item with neither view is skipped without a chat call. */
  lemma SkippedIff(run: nat -> (LabelResult, nat), names: seq<string>, calls: nat, item: WorkItem, stamp: string)
    ensures ProcessSpec(run, names, calls, item, stamp).0.Skipped? <==>
      forall i :: 0 <= i < |names| ==> !EndsWith(names[i], FrontSuffix) && !EndsWith(names[i], BackSuffix)
    ensures ProcessSpec(run, names, calls, item, stamp).0.Skipped? ==> ProcessSpec(run, names, calls, item, stamp).1 == calls
  {
  }

  /** Each view with an image costs one run of one to three chat calls. */
  lemma RunsCalls(run: nat -> (LabelResult, nat), img: Images, calls: nat)
    requires RunnerShape(run)
    ensures var next := Runs(run, img, calls).2;
      calls + (if img.front.Some? then 1 else 0) + (if img.back.Some? then 1 else 0) <= next
      && next <= calls + (if img.front.Some? then MaxAttempts else 0) + (if img.back.Some? then MaxAttempts else 0)
  {
  }

  /** A failed run of a view leaves `{}` and a non-empty error; a view
      without an image, or a run that succeeded, leaves no error. */
  lemma RunsShape(run: nat -> (LabelResult, nat), img: Images, calls: nat)
    requires RunnerShape(run)
    ensures var (fr, br, _) := Runs(run, img, calls);
      (fr.error.Some? ==> img.front.Some? && fr.labels == EmptyObject && fr.error.value != "")
      && (br.error.Some? ==> img.back.Some? && br.labels == EmptyObject && br.error.value != "")
  {
  }

  /** `strip()` takes just the final blank off a message that starts with
      something other than a blank and ends with "; ". */
  lemma TrimMessage(head: string)
    requires |head| > 0 && !IsSpace(head[0])
    ensures Trim(head + "; ") == head + ";"
  {
    var msg := head + "; ";
    var t := head + ";";
    assert msg[0] == head[0];
    assert msg[..|msg| - 1] == t;
    assert TrimStart(msg) == msg;
    assert TrimEnd(msg) == TrimEnd(t);
    assert TrimEnd(t) == t by { assert t[|t| - 1] == ';'; }
  }

  /** A failed run, as `label_image` returns it. */
  predicate FailedShape(r: LabelResult)
  {
    r.error.Some? ==> r.labels == EmptyObject && r.error.value != ""
  }

  lemma FrontOnlyError(fr: LabelResult, br: LabelResult)
    requires FailedShape(fr) && fr.error.Some? && br.error.None?
    ensures StoredError(fr, br) == Some(FrontError + fr.error.value + ";")
  {
    var head := FrontError + fr.error.value;
    assert ErrorMessage(fr, br) == head + "; ";
    TrimMessage(head);
  }

  lemma BackOnlyError(fr: LabelResult, br: LabelResult)
    requires FailedShape(br) && fr.error.None? && br.error.Some?
    ensures StoredError(fr, br) == Some(BackError + br.error.value + ";")
  {
    var head := BackError + br.error.value;
    assert ErrorMessage(fr, br) == head + "; ";
    TrimMessage(head);
  }

  lemma BothError(fr: LabelResult, br: LabelResult)
    requires FailedShape(fr) && FailedShape(br) && fr.error.Some? && br.error.Some?
    ensures StoredError(fr, br) == Some(FrontError + fr.error.value + "; " + BackError + br.error.value + ";")
  {
    var head := FrontError + fr.error.value + "; " + BackError + br.error.value;
    assert ErrorMessage(fr, br) == head + "; ";
    TrimMessage(head);
  }

  /** The stored error: present exactly when a view's run failed, made of
      the failing views' messages, front first, without the final blank. */
  lemma StoredErrorCases(fr: LabelResult, br: LabelResult)
    requires FailedShape(fr) && FailedShape(br)
    ensures StoredError(fr, br).None? <==> fr.error.None? && br.error.None?
    ensures fr.error.Some? && br.error.None? ==> StoredError(fr, br) == Some(FrontError + fr.error.value + ";")
    ensures fr.error.None? && br.error.Some? ==> StoredError(fr, br) == Some(BackError + br.error.value + ";")
    ensures fr.error.Some? && br.error.Some? ==>
      StoredError(fr, br) == Some(FrontError + fr.error.value + "; " + BackError + br.error.value + ";")
  {
    if fr.error.Some? && br.error.None? { FrontOnlyError(fr, br); }
    if fr.error.None? && br.error.Some? { BackOnlyError(fr, br); }
    if fr.error.Some? && br.error.Some? { BothError(fr, br); }
  }

  /** For a finished item, the stored error as `StoredErrorCases` describes
      it, for the runs the item actually made. */
  lemma ItemError(run: nat -> (LabelResult, nat), names: seq<string>, calls: nat, item: WorkItem, stamp: string)
    requires RunnerShape(run) && ProcessSpec(run, names, calls, item, stamp).0.Done?
    ensures var (fr, br, _) := Runs(run, FindEquipmentImages(item.dir, names), calls);
      ProcessSpec(run, names, calls, item, stamp).0.result.error == StoredError(fr, br)
      && FailedShape(fr) && FailedShape(br)
      && (fr.error.Some? ==> FindEquipmentImages(item.dir, names).front.Some?)
      && (br.error.Some? ==> FindEquipmentImages(item.dir, names).back.Some?)
  {
    RunsShape(run, FindEquipmentImages(item.dir, names), calls);
  }

  /** The saved labels merge the truthy replies of the views; any other view
      counts as `{}`. */
  lemma ItemLabels(run: nat -> (LabelResult, nat), names: seq<string>, calls: nat, item: WorkItem, stamp: string)
    requires ProcessSpec(run, names, calls, item, stamp).0.Done?
    ensures var (fr, br, _) := Runs(run, FindEquipmentImages(item.dir, names), calls);
      var res := ProcessSpec(run, names, calls, item, stamp).0.result;
      (JsonTruthy(fr.labels) ==> fr.labels.Object?)
      && (JsonTruthy(br.labels) ==> br.labels.Object?)
      && res.labels == MergeLabels(if JsonTruthy(fr.labels) then fr.labels.labels else NoLabels,
                                   if JsonTruthy(br.labels) then br.labels.labels else NoLabels)
      && res.equipmentId == item.id && res.equipmentName == item.name && res.timestamp == stamp
  {
    var img := FindEquipmentImages(item.dir, names);
    var (fr, br, next) := Runs(run, img, calls);
    SpecOfRuns(run, names, calls, item, stamp, img, fr, br, next);
    FinishFields(item, img, fr, br, stamp);
  }

  /** The fields of a finished result that do not depend on the message. */
  lemma FinishFields(item: WorkItem, img: Images, fr: LabelResult, br: LabelResult, stamp: string)
    requires Finish(item, img, fr, br, stamp).Done?
    ensures var res := Finish(item, img, fr, br, stamp).result;
      (JsonTruthy(fr.labels) ==> fr.labels.Object?)
      && (JsonTruthy(br.labels) ==> br.labels.Object?)
      && res.labels == MergeLabels(if JsonTruthy(fr.labels) then fr.labels.labels else NoLabels,
                                   if JsonTruthy(br.labels) then br.labels.labels else NoLabels)
      && res.equipmentId == item.id && res.equipmentName == item.name && res.timestamp == stamp
  {
  }

  /** An item with an image ends as `Finish` says, once its views have run. */
  lemma SpecOfRuns(run: nat -> (LabelResult, nat), names: seq<string>, calls: nat, item: WorkItem, stamp: string,
                   img: Images, fr: LabelResult, br: LabelResult, next: nat)
    requires img == FindEquipmentImages(item.dir, names) && (img.front.Some? || img.back.Some?)
    requires (fr, br, next) == Runs(run, img, calls)
    ensures ProcessSpec(run, names, calls, item, stamp) == (Finish(item, img, fr, br, stamp), next)
  {
  }

  /** `Finish` as `process_equipment` computes it from the views' labels
      and the accumulated message. */
  lemma FinishSteps(item: WorkItem, img: Images, fr: LabelResult, br: LabelResult, stamp: string,
                    labelsFront: JsonValue, labelsBack: JsonValue, errorMsg: string)
    requires labelsFront == SideLabels(fr) && labelsBack == SideLabels(br) && errorMsg == ErrorMessage(fr, br)
    ensures Finish(item, img, fr, br, stamp) ==
      if labelsFront.Other? || labelsBack.Other? then Raised
      else Done(ItemResult(item.id, item.name, PathOrEmpty(img.front), PathOrEmpty(img.back),
        MergeLabels(labelsFront.labels, labelsBack.labels), stamp, if errorMsg != "" then Some(Trim(errorMsg)) else None))
  {
  }

  // ---------------------------------------------------------------------
  // The labeler

  lemma RecordsAppend(a: seq<ItemResult>, r: ItemResult)
    ensures Records(a + [r]) == Records(a) + Records([r])
  {
    assert |Records(a + [r])| == |Records(a) + Records([r])|;
    forall k | 0 <= k < |a| + 1 ensures Records(a + [r])[k] == (Records(a) + Records([r]))[k] {
      if k < |a| { assert (a + [r])[k] == a[k]; } else { assert (a + [r])[k] == r; assert Records([r])[0] == Record(FlatRow(r)); }
    }
  }

  lemma IdsOfResultsAppend(a: seq<ItemResult>, r: ItemResult)
    requires r.equipmentId != ""
    ensures IdsOfResults(a + [r]) == IdsOfResults(a) + {r.equipmentId}
    ensures IdsOfResults([r]) == {r.equipmentId}
  {
    var b := a + [r];
    assert b[|a|] == r;
    forall x ensures x in IdsOfResults(b) <==> x in IdsOfResults(a) || x == r.equipmentId {
      if x in IdsOfResults(a) {
        var i :| 0 <= i < |a| && a[i].equipmentId != "" && a[i].equipmentId == x;
        assert b[i] == a[i];
      }
    }
    assert [r][0] == r;
  }


  /** The (id, name) pairs of some results, and of some work items. */
  function ResultKeys(rs: seq<ItemResult>): set<(string, string)>
  {
    set r | r in rs :: (r.equipmentId, r.equipmentName)
  }

  function ItemKeys(ws: seq<WorkItem>): set<(string, string)>
  {
    set w | w in ws :: (w.id, w.name)
  }

  lemma ResultKeysAppend(rs: seq<ItemResult>, r: ItemResult)
    ensures ResultKeys(rs + [r]) == ResultKeys(rs) + {(r.equipmentId, r.equipmentName)}
  {
    assert forall x :: x in rs + [r] <==> x in rs || x == r;
  }

  lemma ItemKeysOfMembers(items: seq<WorkItem>, cands: seq<WorkItem>)
    requires forall j :: 0 <= j < |items| ==> items[j] in cands
    ensures ItemKeys(items) <= ItemKeys(cands)
  {
  }

  lemma IdsStep(ids0: set<string>, ids: set<string>, ids2: set<string>, saved: seq<ItemResult>, res: ItemResult)
    requires res.equipmentId != ""
    requires ids == ids0 + IdsOfResults(saved) && ids2 == ids + {res.equipmentId}
    ensures ids2 == ids0 + IdsOfResults(saved + [res])
  {
    IdsOfResultsAppend(saved, res);
  }

  /** Appending one more saved result keeps the table the header (when
      the file is new) followed by the records of all saved results. */
  lemma LinesStep(lines0: seq<seq<string>>, present0: bool, saved: seq<ItemResult>, res: ItemResult,
                  lines: seq<seq<string>>, present: bool)
    requires lines == lines0 + (if present0 || |saved| == 0 then [] else [Fieldnames]) + Records(saved)
    requires present == (present0 || |saved| > 0)
    ensures lines + (if present then [] else [Fieldnames]) + Records([res])
      == lines0 + (if present0 || |saved + [res]| == 0 then [] else [Fieldnames]) + Records(saved + [res])
  {
    RecordsAppend(saved, res);
  }

  /** Saving one result adds its id to the ledger the table records. */
  lemma LedgerStep(present: bool, lines: seq<seq<string>>, res: ItemResult)
    requires (!present ==> lines == []) && (present ==> |lines| > 0 && lines[0] == Fieldnames)
    requires res.equipmentId != ""
    ensures Ledger(true, lines + (if present then [] else [Fieldnames]) + Records([res]))
      == Ledger(present, lines) + {res.equipmentId}
  {
    LedgerAfterSave(present, lines, [res]);
    IdsOfResultsAppend([], res);
  }

  lemma CandidateHasId(root: string, entries: seq<Entry>, processed: set<string>, w: WorkItem)
    requires w in Candidates(root, entries, processed)
    ensures w.id != ""
  {
    var i :| 0 <= i < |entries| && Yields(root, entries[i], processed, w);
  }

  /** The work list is the candidates in id order: as many, each with an id. */
  lemma CandidatesInOrder(root: string, entries: seq<Entry>, processed: set<string>)
    ensures var c := Candidates(root, entries, processed);
      |SortById(c)| == |c| && forall w :: w in SortById(c) ==> w in c && w.id != ""
  {
    var c := Candidates(root, entries, processed);
    assert |SortById(c)| == |multiset(SortById(c))|;
    forall w | w in SortById(c) ensures w in c && w.id != "" {
      assert w in multiset(SortById(c));
      assert w in multiset(c);
      CandidateHasId(root, entries, processed, w);
    }
  }

  /** The items `label_directory` works through: the new items of `root`
      in id order, only the first ten in debug mode. */
  function WorkItems(root: string, entries: seq<Entry>, processed: set<string>, debug: bool): seq<WorkItem>
  {
    var all := SortById(Candidates(root, entries, processed));
    if debug && |all| > 10 then all[..10] else all
  }

  /** The loop of `label_directory` over `items`, item `j` stamped
      `stamps(j)` and its chat calls following those of the items before:
      the results saved, in order, and the next unused chat call. An item
      that is skipped or raises saves nothing and the loop goes on. */
  function SavedSpec(run: nat -> (LabelResult, nat), listing: string -> seq<string>, items: seq<WorkItem>,
                     stamps: nat -> string, calls: nat): (seq<ItemResult>, nat)
  {
    if |items| == 0 then ([], calls)
    else
      var last := items[|items| - 1];
      var (prev, c) := SavedSpec(run, listing, items[..|items| - 1], stamps, calls);
      var (o, next) := ProcessSpec(run, listing(last.dir), c, last, stamps(|items| - 1));
      (if o.Done? then prev + [o.result] else prev, next)
  }

  /** One more item: its outcome is appended when it finished, and its chat
      calls follow those of the items before it. */
  lemma SavedSpecStep(run: nat -> (LabelResult, nat), listing: string -> seq<string>, items: seq<WorkItem>,
                      stamps: nat -> string, calls: nat, i: nat)
    requires i < |items|
    ensures var (prev, c) := SavedSpec(run, listing, items[..i], stamps, calls);
      var (o, next) := ProcessSpec(run, listing(items[i].dir), c, items[i], stamps(i));
      SavedSpec(run, listing, items[..i + 1], stamps, calls) == (if o.Done? then prev + [o.result] else prev, next)
  {
    assert items[..i + 1][..i] == items[..i] && items[..i + 1][i] == items[i];
  }

  /** Items are worked through in list order: the results of a prefix of
      the work list are a prefix of the results of the whole list, and the
      calls the prefix makes come first. */
  lemma {:induction false} SavedSpecPrefix(run: nat -> (LabelResult, nat), listing: string -> seq<string>,
                                           items: seq<WorkItem>, stamps: nat -> string, calls: nat, k: nat)
    requires k <= |items|
    ensures var (pre, c1) := SavedSpec(run, listing, items[..k], stamps, calls);
      var (all, c2) := SavedSpec(run, listing, items, stamps, calls);
      |pre| <= |all| && pre == all[..|pre|] && (RunnerShape(run) ==> c1 <= c2)
    decreases |items|
  {
    if k < |items| {
      var init := items[..|items| - 1];
      assert items[..k] == init[..k];
      SavedSpecPrefix(run, listing, init, stamps, calls, k);
      var last := items[|items| - 1];
      var c := SavedSpec(run, listing, init, stamps, calls).1;
      if RunnerShape(run) {
        RunsCalls(run, FindEquipmentImages(last.dir, listing(last.dir)), c);
      }
    } else {
      assert items[..k] == items;
    }
  }

  /** Every saved result is the finished outcome of one of the items, with
      that item's id and name, and no more results are saved than there are items. */
  lemma {:induction false} SavedSpecResults(run: nat -> (LabelResult, nat), listing: string -> seq<string>,
                                            items: seq<WorkItem>, stamps: nat -> string, calls: nat)
    ensures var saved := SavedSpec(run, listing, items, stamps, calls).0;
      |saved| <= |items| && ResultKeys(saved) <= ItemKeys(items)
    decreases |items|
  {
    if |items| > 0 {
      var init := items[..|items| - 1];
      SavedSpecResults(run, listing, init, stamps, calls);
      var prev := SavedSpec(run, listing, init, stamps, calls).0;
      assert ItemKeys(init) <= ItemKeys(items) by {
        forall w | w in init ensures w in items { }
      }
      var last := items[|items| - 1];
      assert last in items;
      var o := ProcessSpec(run, listing(last.dir), SavedSpec(run, listing, init, stamps, calls).1, last, stamps(|items| - 1)).0;
      if o.Done? {
        ResultKeysAppend(prev, o.result);
      }
    }
  }

  /** An item without any view image is never saved, and costs no chat call. */
  lemma SkippedNotSaved(run: nat -> (LabelResult, nat), listing: string -> seq<string>,
                        items: seq<WorkItem>, stamps: nat -> string, calls: nat)
    requires |items| > 0
    requires var last := items[|items| - 1]; var img := FindEquipmentImages(last.dir, listing(last.dir));
      img.front.None? && img.back.None?
    ensures SavedSpec(run, listing, items, stamps, calls) == SavedSpec(run, listing, items[..|items| - 1], stamps, calls)
  {
  }

  /** `FFXIVAutoLabeler`: the chat service, the listing of a directory's
      file names, the output table; the in-memory ledger of processed ids,
      and the number of chat calls made so far. */
  class AutoLabeler {
    const svc: Service
    const listing: string -> seq<string>
    const output: CsvFile
    var processedIds: set<string>
    var calls: nat

    /** The in-memory ledger is what the output table records, for a table
        in the shape the labeler writes (absent, or the header first). Any
        other existing file is appended to all the same; the methods below
        keep this agreement when it held at their start. */
    predicate Valid()
      reads this, output
    {
      output.Valid() && processedIds == Ledger(output.present, output.lines)
    }

    /** `__init__`: the ledger is loaded from the output table. */
    constructor(svc: Service, listing: string -> seq<string>, output: CsvFile)
      ensures this.svc == svc && this.listing == listing && this.output == output
      ensures processedIds == Ledger(output.present, output.lines) && calls == 0
      ensures output.Valid() ==> Valid()
    {
      this.svc := svc;
      this.listing := listing;
      this.output := output;
      processedIds := Ledger(output.present, output.lines);
      calls := 0;
    }

    /** One view of `process_equipment`: a run of `label_image`; the labels
        when they are truthy, otherwise the view's part of the message. */
    method LabelView(prefix: string) returns (labels: JsonValue, message: string, ghost r: LabelResult)
      modifies this
      ensures (r, calls) == Runner(svc)(old(calls))
      ensures labels == SideLabels(r) && message == SideMessage(prefix, r)
      ensures processedIds == old(processedIds)
    {
      var res, next := LabelImage(svc, calls);
      assert Runner(svc)(calls) == (res, next);
      calls, r := next, res;
      labels, message := EmptyObject, "";
      if JsonTruthy(res.labels) {
        labels := res.labels;
      } else if res.error.Some? && res.error.value != "" {
        message := prefix + res.error.value + "; ";
      }
    }

    /** `process_equipment`: labels the views that have an image, composes
        the error message view by view, and records the id once the item is
        finished. */
    method ProcessEquipment(item: WorkItem, stamp: string) returns (outcome: ItemOutcome)
      modifies this
      ensures (outcome, calls) == ProcessSpec(Runner(svc), listing(item.dir), old(calls), item, stamp)
      ensures processedIds == old(processedIds) + (if outcome.Done? then {item.id} else {})
      ensures outcome.Done? ==> outcome.result.equipmentId == item.id && outcome.result.equipmentName == item.name
    {
      var img := FindEquipmentImages(item.dir, listing(item.dir));
      if img.front.None? && img.back.None? {
        return Skipped;
      }
      ghost var start := calls;
      var labelsFront := EmptyObject;
      var labelsBack := EmptyObject;
      var errorMsg := "";
      ghost var fr, br := NotRun, NotRun;
      if img.front.Some? {
        var m;
        labelsFront, m, fr := LabelView(FrontError);
        errorMsg := errorMsg + m;
        assert errorMsg == m;
      }
      ghost var frontMsg := errorMsg;
      assert frontMsg == SideMessage(FrontError, fr);
      if img.back.Some? {
        var m;
        labelsBack, m, br := LabelView(BackError);
        errorMsg := errorMsg + m;
      }
      assert errorMsg == frontMsg + SideMessage(BackError, br);
      assert (fr, br, calls) == Runs(Runner(svc), img, start);
      SpecOfRuns(Runner(svc), listing(item.dir), start, item, stamp, img, fr, br, calls);
      outcome := Conclude(item, img, stamp, labelsFront, labelsBack, errorMsg, fr, br);
    }

    /** The end of `process_equipment`: the merge, which raises on a reply
        that is not an object, the stripped message, the result and the
        ledger entry. */
    method Conclude(item: WorkItem, img: Images, stamp: string, labelsFront: JsonValue, labelsBack: JsonValue,
                    errorMsg: string, ghost fr: LabelResult, ghost br: LabelResult) returns (outcome: ItemOutcome)
      requires labelsFront == SideLabels(fr) && labelsBack == SideLabels(br) && errorMsg == ErrorMessage(fr, br)
      modifies this
      ensures outcome == Finish(item, img, fr, br, stamp)
      ensures outcome.Done? ==> outcome.result.equipmentId == item.id && outcome.result.equipmentName == item.name
      ensures processedIds == old(processedIds) + (if outcome.Done? then {item.id} else {})
      ensures calls == old(calls)
    {
      FinishSteps(item, img, fr, br, stamp, labelsFront, labelsBack, errorMsg);
      if labelsFront.Other? || labelsBack.Other? {
        return Raised;
      }
      var merged := MergeLabels(labelsFront.labels, labelsBack.labels);
      var error: Option<string> := None;
      if errorMsg != "" {
        error := Some(Trim(errorMsg));
      }
      processedIds := processedIds + {item.id};
      outcome := Done(ItemResult(item.id, item.name, PathOrEmpty(img.front), PathOrEmpty(img.back), merged, stamp, error));
      assert outcome == Finish(item, img, fr, br, stamp);
    }

    /** The body of the loop of `label_directory`: the item is processed
        and, when it is finished, its result is appended to the table. */
    method ProcessAndSave(item: WorkItem, stamp: string) returns (res: Option<ItemResult>)
      requires item.id != ""
      modifies this, output
      ensures var (o, c) := ProcessSpec(Runner(svc), listing(item.dir), old(calls), item, stamp);
        calls == c && res == (if o.Done? then Some(o.result) else None)
      ensures res.Some? ==> res.value.equipmentId == item.id && res.value.equipmentName == item.name
      ensures output.present == (old(output.present) || res.Some?)
      ensures res.None? ==> output.lines == old(output.lines)
      ensures res.Some? ==> output.lines == old(output.lines) + (if old(output.present) then [] else [Fieldnames]) + Records([res.value])
      ensures processedIds == old(processedIds) + (if res.Some? then {item.id} else {})
      ensures old(Valid()) ==> Valid()
    {
      var outcome := ProcessEquipment(item, stamp);
      res := None;
      if outcome.Done? {
        var result := outcome.result;
        ghost var before := output.lines;
        ghost var wasPresent := output.present;
        output.SaveResultsToCsv([result]);
        if (!wasPresent ==> before == []) && (wasPresent ==> |before| > 0 && before[0] == Fieldnames) {
          LedgerStep(wasPresent, before, result);
        }
        res := Some(result);
      }
    }

    /** The items `label_directory` works through: the new items of `root`
        in id order, only the first ten in debug mode. */
    method WorkList(root: string, entries: seq<Entry>, debug: bool) returns (items: seq<WorkItem>)
      ensures items == WorkItems(root, entries, processedIds, debug)
      ensures |items| <= |Candidates(root, entries, processedIds)| && (debug ==> |items| <= 10)
      ensures forall j :: 0 <= j < |items| ==> items[j] in Candidates(root, entries, processedIds) && items[j].id != ""
    {
      items := GetEquipmentDirectories(root, entries, processedIds);
      CandidatesInOrder(root, entries, processedIds);
      if debug && |items| > 10 {
        items := items[..10];
      }
    }

    /** `label_directory`: the new items of `root` in id order (only the
        first ten in debug mode), processed in turn, each finished item
        appended to the output table on its own; returns the saved results
        in order. `stamps(i)` is the time stamp of the i-th item. */
    method LabelDirectory(root: string, entries: seq<Entry>, debug: bool, stamps: nat -> string)
      returns (saved: seq<ItemResult>)
      modifies this, output
      ensures output.lines == old(output.lines) + (if old(output.present) || |saved| == 0 then [] else [Fieldnames]) + Records(saved)
      ensures output.present == (old(output.present) || |saved| > 0)
      ensures processedIds == old(processedIds) + IdsOfResults(saved)
      ensures old(Valid()) ==> Valid()
      ensures (saved, calls) == SavedSpec(Runner(svc), listing, WorkItems(root, entries, old(processedIds), debug), stamps, old(calls))
      ensures debug ==> |saved| <= 10
      ensures |saved| <= |Candidates(root, entries, old(processedIds))|
      ensures ResultKeys(saved) <= ItemKeys(Candidates(root, entries, old(processedIds)))
    {
      var items := WorkList(root, entries, debug);
      ghost var cands := Candidates(root, entries, processedIds);
      saved := LabelItems(items, stamps);
      ItemKeysOfMembers(items, cands);
    }

    /** The loop of `label_directory` over the work list. */
    method LabelItems(items: seq<WorkItem>, stamps: nat -> string) returns (saved: seq<ItemResult>)
      requires forall j :: 0 <= j < |items| ==> items[j].id != ""
      modifies this, output
      ensures output.lines == old(output.lines) + (if old(output.present) || |saved| == 0 then [] else [Fieldnames]) + Records(saved)
      ensures output.present == (old(output.present) || |saved| > 0)
      ensures processedIds == old(processedIds) + IdsOfResults(saved)
      ensures old(Valid()) ==> Valid()
      ensures (saved, calls) == SavedSpec(Runner(svc), listing, items, stamps, old(calls))
      ensures |saved| <= |items|
      ensures ResultKeys(saved) <= ItemKeys(items)
    {
      saved := [];
      assert Records([]) == [] && IdsOfResults([]) == {} && ResultKeys([]) == {};
      assert items[..0] == [];
      for i := 0 to |items|
        invariant output.lines == old(output.lines) + (if old(output.present) || |saved| == 0 then [] else [Fieldnames]) + Records(saved)
        invariant output.present == (old(output.present) || |saved| > 0)
        invariant processedIds == old(processedIds) + IdsOfResults(saved)
        invariant old(Valid()) ==> Valid()
        invariant (saved, calls) == SavedSpec(Runner(svc), listing, items[..i], stamps, old(calls))
      {
        SavedSpecStep(Runner(svc), listing, items, stamps, old(calls), i);
        ghost var before := output.lines;
        ghost var wasPresent := output.present;
        ghost var idsBefore := processedIds;
        var res := ProcessAndSave(items[i], stamps(i));
        if res.Some? {
          LinesStep(old(output.lines), old(output.present), saved, res.value, before, wasPresent);
          IdsStep(old(processedIds), idsBefore, processedIds, saved, res.value);
          saved := saved + [res.value];
        }
      }
      assert items[..|items|] == items;
      SavedSpecResults(Runner(svc), listing, items, stamps, old(calls));
    }
  }
}
