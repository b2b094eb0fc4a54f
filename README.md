# Lexicon labeling pipeline in Dafny

Lexicon labels equipment images with a vision model and searches the labels.

- **Labeling.** For each item directory `<name>_<digits>` under a root, it sends the front view (`*h0_p0.png`) and the back view (`*h180_p0.png`) to a chat service. It pulls a JSON object out of each reply, merges the labels of the two views, and appends one 16-column row per item to a CSV file.
- **Resume ledger.** The CSV file doubles as the ledger: on the next run, ids already in it are skipped.
- **Search.** A small web service loads the table and answers four queries: a Jaccard similarity ranking, the set of all tags, lookup by id, and an all-tags-must-match search.
- **Offline scripts.** One rewrites the tag columns of the table. The other reports used, unused and unknown labels per category.

The model follows the Python code module by module:

| module | models |
|---|---|
| `Strings` | Python's `str.strip` (exactly the `isspace` set), `split`, `", ".join`, `replace`, substring search, ASCII `lower` |
| `Ordering` | Python string order (code points, lexicographic), and `sorted(set)` as a strictly ascending list with the same members |
| `Ratios` | the float similarity as a pair of naturals, compared by cross-multiplication |
| `Ranking` | the stable `list.sort(key=..., reverse=True)` and the slice `[:k]` |
| `Frames` | a pandas table: a column set and rows of cells that are text or NaN |
| `LabelModel` | the label dictionary and the cell format, ", "-joined labels read back by splitting on commas |
| `FileUtils` | `src/lexicon/file_utils.py` |
| `ApiClient` | `src/lexicon/api_client.py` |
| `Labeler` | `src/lexicon/labeler.py` |
| `App` | `src/lexicon/app.py` |
| `NormalizeTags` | `scripts/normalize_tags.py` |
| `AnalyzeLabels` | `scripts/analyze_labels.py` |

Where the code changes state, the model does too:

- The output file is a class `FileUtils.CsvFile` whose lines only grow.
- The labeler is a class `Labeler.AutoLabeler` holding the in-memory ledger of processed ids.
- The web service's globals `equipment_df` and `all_tags_cache` are the fields of `App.SearchApp`.
- Loops become methods with loop invariants. Each such method's contract equates its result, or its new state, with a specification function, and the properties are proved as lemmas about those functions.

The outside world enters as parameters:

- **Chat service.** The outcome of the n-th chat call: a transport error, or reply text.
- **JSON decoder.** A function from text to a decoded value or an error message.
- **Filesystem.** A directory listing, the file names of each directory, and whether a file exists.
- **CSV file.** Its lines, read back through an ideal reader.
- **Labels.** The defined labels of each category.
- **Environment.** The debug flag, and a time stamp per item.

Where the code and its documentation disagree, the model follows the code:

- **Work order.** Work items are sorted by id *as a string*, so "10" comes before "9". The documentation describes a numeric order.
- **Errors during labeling.** Every exception raised while processing an item is caught, and the loop moves on. The documentation calls persistence errors fatal. The model has only one exception: the merge of a reply that is truthy but not an object.
- **Mojibake.** The ledger's reader `parse_label_string` in `file_utils.py` rewrites the three code points `"ï¼Œ"` to ",". Those are the UTF-8 bytes of the full-width comma U+FF0C read as Windows-1252. It does not rewrite the full-width comma itself, which the documentation says it does. The two scripts rewrite the real U+FF0C. Each is modelled as written; `FileUtils.FullWidthCommaKept` shows the difference.

## Model

| member | source | states |
|---|---|---|
| FileUtils.ParseLabelString | src/lexicon/file_utils.py:14-34 | blank input (empty or only whitespace) gives the empty set; every label is non-empty, stripped and free of ',' |
| FileUtils.MojibakeSeparatorFree | src/lexicon/file_utils.py:32 | the rewritten string `"ï¼Œ"` holds no ',' and does not start with a space, so it cannot be confused with the ", " separator |
| FileUtils.ParseLabelStringOfJoin | src/lexicon/file_utils.py:132-159 | round trip: for non-empty, stripped labels free of ',' and of the mojibake, `parse_label_string(", ".join(xs)) == set(xs)` |
| FileUtils.ParseSingleLabel | src/lexicon/file_utils.py:14-34 | such a label on its own reads back as the one-element set |
| FileUtils.FullWidthCommaKept | src/lexicon/file_utils.py:32 | a real full-width comma between two labels does not split them: the cell reads back as one label |
| FileUtils.ParseEquipmentInfo | src/lexicon/file_utils.py:37-51 | a result (name, id) satisfies the pattern `^(.+?)_(\d+)$`: a non-empty name, "_", an all-digit id |
| FileUtils.IsEquipmentDirName | src/lexicon/file_utils.py:46 | defines what `^(.+?)_(\d+)$` accepts with its two groups (a non-empty name without a line break, "_", digits, at most one final line break); no contract of its own, tied to ParseEquipmentInfo by ParseEquipmentInfoIff |
| FileUtils.LastUnderscoreAt | src/lexicon/file_utils.py:46 | the last "_" of name + "_" + digits is the one before the digits, which is where the lazy name group ends |
| FileUtils.ParseEquipmentInfoComplete | src/lexicon/file_utils.py:45-51 | every decomposition the pattern accepts is the one returned |
| FileUtils.ParseEquipmentInfoIff | src/lexicon/file_utils.py:45-51 | (name, id) is returned iff the directory name is name + "_" + id, with a non-empty name and an all-digit id (a trailing line break allowed, as `$` allows one) |
| FileUtils.ParseEquipmentInfoOfJoin | src/lexicon/file_utils.py:45-51 | joining a name and a digit id with "_" parses back to the pair, even when the name contains "_" |
| FileUtils.NoUnderscoreRejected | src/lexicon/file_utils.py:46-51 | "Hat" gives None |
| FileUtils.EmptyNameRejected | src/lexicon/file_utils.py:46-51 | "_123" gives None |
| FileUtils.SplitAtLastUnderscore | src/lexicon/file_utils.py:46-50 | "Iron_Helm_42" gives ("Iron_Helm", "42") |
| FileUtils.FirstMatch | src/lexicon/file_utils.py:64-70 | None iff no name ends with the suffix; otherwise a member of the listing that ends with it |
| FileUtils.FindEquipmentImages | src/lexicon/file_utils.py:54-72 | front is None iff no file matches `*h0_p0.png`, back is None iff none matches `*h180_p0.png`; otherwise each is the directory path plus a matching name |
| FileUtils.ViewsExclusive | src/lexicon/file_utils.py:64-68 | no file name matches both patterns |
| FileUtils.IdsIn | src/lexicon/file_utils.py:83 | an id is in the set iff some row's `equipment_id` cell holds it, and is not NaN |
| FileUtils.IdOf | src/lexicon/file_utils.py:83 | defines the id a row contributes, none for a NaN cell (`dropna`); no contract of its own, used by IdsIn |
| FileUtils.IdsInConcat | src/lexicon/file_utils.py:83 | the ids of two blocks of rows are the union of each block's ids |
| FileUtils.LoadProcessedEquipmentIds | src/lexicon/file_utils.py:75-89 | the empty set when the file is missing, the read fails or the column is missing; otherwise exactly the non-NaN ids |
| FileUtils.CandidateOf | src/lexicon/file_utils.py:110-115 | at most one work item per entry: the one for a directory whose name parses and whose id is not processed |
| FileUtils.Yields | src/lexicon/file_utils.py:110-115 | defines when an entry yields a work item (a directory whose name parses, with an id not in the ledger); no contract of its own, tied to CandidateOf and Candidates by their ensures |
| FileUtils.Candidates | src/lexicon/file_utils.py:109-115 | a work item is collected iff some entry is a directory whose name parses to it and whose id is not processed |
| FileUtils.IdsCompareAsStrings | src/lexicon/file_utils.py:117 | ids compare as strings: "10" sorts before "9" |
| FileUtils.SortById | src/lexicon/file_utils.py:117 | `sorted(..., key=id)`: ascending by id as a string, a permutation, and items with equal ids keep their order (stable) |
| FileUtils.InsertById | src/lexicon/file_utils.py:117 | defines one step of the stable sort by id; no contract of its own, stated by InsertByIdSorted, InsertByIdMultiset and InsertByIdWithId |
| FileUtils.InsertByIdSorted | src/lexicon/file_utils.py:117 | inserting into a list sorted by id keeps it sorted |
| FileUtils.InsertByIdMultiset | src/lexicon/file_utils.py:117 | inserting adds exactly the one item |
| FileUtils.InsertByIdWithId | src/lexicon/file_utils.py:117 | the inserted item comes after every item with its id, which is what keeps the sort stable |
| FileUtils.GetEquipmentDirectories | src/lexicon/file_utils.py:92-117 | exactly the entries that parse and whose id is not processed, sorted by id as a string, stably, as a permutation of the collected list |
| FileUtils.SameMembers | src/lexicon/file_utils.py:117 | sorting keeps the members of the list |
| FileUtils.Record | src/lexicon/file_utils.py:178-190 | the fields written for a row are exactly the 16 header columns |
| FileUtils.RecordColumns | src/lexicon/file_utils.py:178-184 | each of the 16 written fields sits under the header column of its own name, in header order (id, name, front_image, back_image, the six categories, appearance_looks_like, appearance_description, custom_tags, all_labels, error, timestamp) |
| FileUtils.FlatRow | src/lexicon/file_utils.py:120-166 | defines the row `flatten_labels` builds from a result; no contract of its own, its cells are stated by FlatRowCells |
| FileUtils.CellText | src/lexicon/file_utils.py:139-154 | defines the cell of `appearance_looks_like` and `custom_tags`: a list ", "-joined, a string as it is; no contract of its own, used by FlatRow |
| FileUtils.Concat | src/lexicon/file_utils.py:156-158 | defines the `extend` loop over the categories; no contract of its own, stated by ConcatCategories |
| FileUtils.CategoryCell | src/lexicon/file_utils.py:132-137 | defines the cell of a category in a row; no contract of its own, stated by FlatRowCells |
| FileUtils.ConcatCategories | src/lexicon/file_utils.py:156-158 | the loop that extends `all_labels` gives the six categories concatenated in order, duplicates kept |
| FileUtils.FlatRowCells | src/lexicon/file_utils.py:130-166 | all_labels is the ", "-join of the six categories in order, without dedup; each category cell is the ", "-join of its list; error is "" when absent, and the message otherwise |
| FileUtils.CategoryCellReadsBack | src/lexicon/file_utils.py:132-137 | a category cell reads back as the set of its labels |
| FileUtils.FieldInAll | src/lexicon/file_utils.py:156-158 | every label of a category is among all_labels |
| FileUtils.AllLabelsReadBack | src/lexicon/file_utils.py:156-159 | the all_labels cell reads back as the set of all category labels |
| FileUtils.FlatRowReadsBack | src/lexicon/file_utils.py:130-159 | both kinds of cell read back as the sets of their labels |
| FileUtils.FlattenLabels | src/lexicon/file_utils.py:120-166 | fills the row field by field, extending all_labels in a loop, and gives the row the cell properties above describe |
| FileUtils.Records | src/lexicon/file_utils.py:174 | one written line per result, in order |
| FileUtils.CsvFile.constructor | src/lexicon/file_utils.py:176 | a file with the given existence and lines |
| FileUtils.CsvFile.SaveResultsToCsv | src/lexicon/file_utils.py:169-190 | with no results nothing changes; otherwise the lines already there stay, the header is written first iff the file did not exist, the rows follow in order, and the file then exists; a well-formed file stays well-formed |
| FileUtils.RecordRowIds | src/lexicon/file_utils.py:169-190 | reading the written records back gives exactly the non-empty ids of the results |
| FileUtils.CellOf | src/lexicon/file_utils.py:81 | defines a field as `read_csv` returns it: an empty or missing field is NaN; no contract of its own, used by ReadBack |
| FileUtils.RowFrom | src/lexicon/file_utils.py:81 | defines a line keyed by the header; no contract of its own, used by ReadBack |
| FileUtils.ReadBack | src/lexicon/file_utils.py:81 | defines the table `read_csv` makes of the lines: the first line is the header, an empty file cannot be read; no contract of its own, stated by ReadBackAppend and EmptyFileForgets |
| FileUtils.ReadBackAppend | src/lexicon/file_utils.py:177-190 | appending records keeps the header and the rows already there, and adds one row per record |
| FileUtils.Ledger | src/lexicon/file_utils.py:75-89 | defines the ledger loaded from the lines of the file; no contract of its own, its contents are stated by LedgerAfterSave |
| FileUtils.LedgerAfterSave | src/lexicon/file_utils.py:75-190 | after a save, the ledger loaded from the file is the old ledger plus the ids of the saved results |
| FileUtils.AppendedIds | src/lexicon/file_utils.py:75-190 | for a file that starts with the header, the ledger after appending records is the ids read before plus the ids of the appended results |
| FileUtils.EmptyFileForgets | src/lexicon/file_utils.py:75-190 | an existing empty output file gets no header, so its first saved record is read back as the header and the reloaded ledger is empty |
| FileUtils.IdsOfResults | src/lexicon/labeler.py:200 | defines the non-empty ids of some results; no contract of its own, used by LedgerAfterSave |
| ApiClient.FenceBodyStart | src/lexicon/api_client.py:20 | the opening fence, an optional "json" and whitespace are skipped within the text |
| ApiClient.FirstClose | src/lexicon/api_client.py:20 | the first "}" followed by whitespace and a closing fence, at or after the start (the lazy `.*?`) |
| ApiClient.FirstCloseLeast | src/lexicon/api_client.py:20 | no earlier position closes the fence |
| ApiClient.FenceAt | src/lexicon/api_client.py:20 | a fenced block starting at p: a "{" and then a "}" inside the text |
| ApiClient.Leftmost | src/lexicon/api_client.py:20 | the leftmost position from p on where a match starts |
| ApiClient.LeftmostLeast | src/lexicon/api_client.py:20 | no match starts before it (and none at all when there is none) |
| ApiClient.SearchFence | src/lexicon/api_client.py:20 | `re.search` tries the start positions left to right: the result is a position where a fenced block starts |
| ApiClient.SearchFenceLeftmost | src/lexicon/api_client.py:20-21 | no fenced block starts before the position found, and none at all when it finds none |
| ApiClient.SearchFenceFinds | src/lexicon/api_client.py:20 | a block starting at p is found at p |
| ApiClient.FencedBlock | src/lexicon/api_client.py:20-22 | the captured group starts with "{" and ends with "}" |
| ApiClient.FenceAtExample | src/lexicon/api_client.py:20 | in "```json {} ```", the braces sit at positions 8 and 9 |
| ApiClient.BraceSpan | src/lexicon/api_client.py:24-26 | the greedy span runs from the first "{" of the text to its last "}" when the first comes before the last; it starts with "{" and ends with "}" |
| ApiClient.OutermostBraces | src/lexicon/api_client.py:24-26 | defines the span the greedy `\{.*\}` matches: the first "{", the last "}", the first before the last; no contract of its own, tied to BraceSpan by its ensures |
| ApiClient.OutermostBracesUnique | src/lexicon/api_client.py:24-26 | at most one pair of positions is the outermost pair |
| ApiClient.BraceSpanIff | src/lexicon/api_client.py:24-26 | the span exists iff some "{" comes before a later "}" |
| ApiClient.FencedBlockHasBraces | src/lexicon/api_client.py:20-26 | whenever the fenced tier matches, the text has a "{" before a later "}" |
| ApiClient.ExtractJson | src/lexicon/api_client.py:12-28 | text that decodes as any JSON value is returned unchanged; otherwise the fenced block's object when there is one; otherwise the greedy brace span; any result other than the text starts with "{" and ends with "}" |
| ApiClient.JsonTruthy | src/lexicon/labeler.py:169 | defines Python truthiness of a decoded reply (an object with a key, or a truthy other value); no contract of its own, used by SideLabels and ItemLabels |
| ApiClient.ExtractJsonNone | src/lexicon/api_client.py:12-28 | None iff the text does not decode and has no "{" before a later "}" |
| ApiClient.LeadingFence | src/lexicon/api_client.py:20-22 | a text that does not decode and opens with a fenced block gives that block's braces and interior |
| ApiClient.FencedExample | src/lexicon/api_client.py:20-22 | "```json {} ```" gives "{}" |
| ApiClient.TryOnce | src/lexicon/api_client.py:71-111 | a transport error keeps its message and no reply; otherwise the reply is stripped first; the attempt succeeds iff the extracted string is non-empty and decodes, carrying the decoded value and the stripped reply; otherwise it fails with "JSON parsing failed: unable to extract JSON from response" or "JSON parsing failed: " + the decoder's message, keeping the stripped reply |
| ApiClient.FinalError | src/lexicon/api_client.py:116 | never empty: the last message, or "Unknown error" when it is empty or missing |
| ApiClient.Retry | src/lexicon/api_client.py:65-117 | defines the retry run from a given attempt on; no contract of its own, its behaviour is stated by RetryCalls, RetryStopsAtSuccess, RetryFailureShape, RetrySucceedsIff and RetryExhausted |
| ApiClient.RetryCalls | src/lexicon/api_client.py:65-111 | between one call and the remaining number of attempts |
| ApiClient.RetryStopsAtSuccess | src/lexicon/api_client.py:70-93 | a success is the first successful attempt, with its labels and reply; a failure means every attempt failed |
| ApiClient.RetryFailureShape | src/lexicon/api_client.py:113-117 | a failed run returns labels {} and a non-empty error |
| ApiClient.RetrySucceedsIff | src/lexicon/api_client.py:65-117 | the run succeeds iff one of the three attempts succeeds |
| ApiClient.RetryExhausted | src/lexicon/api_client.py:94-117 | after three failures: exactly 3 calls, labels {}, raw_response is the reply of the latest attempt that got one ("" if none), and error is the third attempt's message or "Unknown error" |
| ApiClient.LabelImage | src/lexicon/api_client.py:50-117 | `label_image` is the retry run on the service's attempts: one to three calls, and a failure has {} and a non-empty error |
| ApiClient.RetryLoop | src/lexicon/api_client.py:65-117 | the `for attempt` loop computes the retry run and makes one to three calls |
| Labeler.Union | src/lexicon/labeler.py:35-37 | the sorted union of two lists: strictly ascending, with exactly the members of both lists |
| Labeler.AsList | src/lexicon/labeler.py:41-44 | defines the string-as-list rule: a non-empty string is a one-element list, "" the empty list; no contract of its own, stated by the ensures of MergeLabels |
| Labeler.MergeDescription | src/lexicon/labeler.py:49-58 | defines the description rule: both non-empty are joined by "；", otherwise the non-empty one or ""; no contract of its own, stated by the ensures of MergeLabels |
| Labeler.MergeLabels | src/lexicon/labeler.py:20-70 | each category, looks_like and custom_tags is strictly ascending and is the union of both inputs (missing keys read as empty, a string as a list of at most one); description is d1 + "；" + d2 when both are non-empty, the non-empty one when only one is, "" when neither is |
| Labeler.MergeCategory | src/lexicon/labeler.py:34-37 | any category of the merge is strictly ascending and is the union of both inputs |
| Labeler.UnionCommutes | src/lexicon/labeler.py:37 | the union does not depend on argument order |
| Labeler.UnionWithNothing | src/lexicon/labeler.py:37 | merging a sorted list with nothing gives it back |
| Labeler.MergeCommutes | src/lexicon/labeler.py:20-70 | the merge is commutative on every field except appearance_description, and on that one too when a description is empty |
| Labeler.MergeWithNothing | src/lexicon/labeler.py:20-70 | `merge_labels(merge_labels(a, b), {}) == merge_labels(a, b)` |
| Labeler.RunnerShapeHolds | src/lexicon/api_client.py:65-117 | every run of `label_image` makes one to three calls; a failed run has {} and a non-empty error |
| Labeler.ProcessSpec | src/lexicon/labeler.py:154-201 | defines the outcome of `process_equipment` and the chat calls it uses; no contract of its own, stated by SkippedIff, ItemError, ItemLabels and SpecOfRuns |
| Labeler.Runs | src/lexicon/labeler.py:166-184 | defines the two runs, front first, each only for a view with an image; no contract of its own, stated by RunsCalls and RunsShape |
| Labeler.PathOrEmpty | src/lexicon/labeler.py:191-192 | defines `image or ''`; no contract of its own, used by Finish |
| Labeler.SideLabels | src/lexicon/labeler.py:162-170 | defines a view's labels: the reply's labels when truthy, `{}` otherwise; no contract of its own, stated by ItemLabels and FinishSteps |
| Labeler.SideMessage | src/lexicon/labeler.py:171-182 | defines a view's part of the message: prefix, error and "; " when the labels are falsy and the error non-empty; no contract of its own, stated by StoredErrorCases |
| Labeler.ErrorMessage | src/lexicon/labeler.py:164-184 | defines the accumulated message, front part first; no contract of its own, stated by StoredErrorCases |
| Labeler.StoredError | src/lexicon/labeler.py:197-198 | defines the `error` key: the stripped message when it is non-empty; no contract of its own, stated by StoredErrorCases and ItemError |
| Labeler.Finish | src/lexicon/labeler.py:186-201 | defines the end of `process_equipment` from the runs of both views; no contract of its own, stated by FinishSteps and SpecOfRuns |
| Labeler.SkippedIff | src/lexicon/labeler.py:156-160 | an item is skipped iff it has neither image, and then no chat call is made |
| Labeler.RunsCalls | src/lexicon/labeler.py:166-184 | one to three chat calls per image that exists, none for a missing one |
| Labeler.RunsShape | src/lexicon/labeler.py:166-184 | a side with an error had an image, and its labels are {} with a non-empty message |
| Labeler.TrimMessage | src/lexicon/labeler.py:172-198 | stripping a message ending in "; " drops the final space |
| Labeler.FrontOnlyError | src/lexicon/labeler.py:166-198 | only the front failed: the error is "Front image error: " + message + ";" |
| Labeler.BackOnlyError | src/lexicon/labeler.py:176-198 | only the back failed: the error is "Back image error: " + message + ";" |
| Labeler.BothError | src/lexicon/labeler.py:164-198 | both failed: the front's part (ending "; "), then the back's part (ending ";") |
| Labeler.StoredErrorCases | src/lexicon/labeler.py:164-198 | the error key exists iff some side failed, and holds each of the three messages above |
| Labeler.ItemError | src/lexicon/labeler.py:166-198 | a finished item's error is the stripped message of the side results, and only a side with an image can fail |
| Labeler.ItemLabels | src/lexicon/labeler.py:166-195 | a finished item's labels merge the labels of each side when they are truthy, and `{}` for the side otherwise; its id, name and time stamp are the item's |
| Labeler.FinishFields | src/lexicon/labeler.py:186-195 | a finished result merges the truthy labels of each view, `{}` for the other, and carries the item's id, name and stamp |
| Labeler.SpecOfRuns | src/lexicon/labeler.py:154-201 | an item with an image is finished from the results of its views |
| Labeler.FinishSteps | src/lexicon/labeler.py:186-198 | the step-by-step end of `process_equipment` computes the outcome |
| Labeler.RecordsAppend | src/lexicon/labeler.py:208 | saving one result after another writes the same records as saving both |
| Labeler.IdsOfResultsAppend | src/lexicon/labeler.py:200 | the ids of the results grow by the new result's id |
| Labeler.ResultKeysAppend | src/lexicon/labeler.py:188-190 | the (id, name) pairs of the results grow by the new result's pair |
| Labeler.ItemKeysOfMembers | src/lexicon/labeler.py:204 | items drawn from the candidates have (id, name) pairs among theirs |
| Labeler.IdsStep | src/lexicon/labeler.py:200 | the ledger after one more item is the start ledger plus the ids of all results so far |
| Labeler.LinesStep | src/lexicon/labeler.py:208 | the file after one more save holds the start lines, one header if the file was new, and all records so far |
| Labeler.LedgerStep | src/lexicon/labeler.py:200-208 | after a one-row save, the ledger in the file is the old one plus the new id |
| Labeler.CandidateHasId | src/lexicon/file_utils.py:111-115 | every work item has a non-empty id |
| Labeler.CandidatesInOrder | src/lexicon/file_utils.py:117 | the sorted work list has the same length and members as the collected list |
| Labeler.WorkItems | src/lexicon/labeler.py:140-150 | defines the work list; no contract of its own, computed by the method WorkList |
| Labeler.SavedSpec | src/lexicon/labeler.py:203-212 | defines the results the loop saves, item by item in list order; no contract of its own, stated by SavedSpecPrefix, SavedSpecResults and SkippedNotSaved |
| Labeler.SavedSpecPrefix | src/lexicon/labeler.py:203-212 | items are worked through in list order: the results saved for a prefix of the work list are a prefix of those for the whole list, and its chat calls come first |
| Labeler.SavedSpecResults | src/lexicon/labeler.py:203-208 | no more results than items, and every saved result carries the id and name of one of the items |
| Labeler.SkippedNotSaved | src/lexicon/labeler.py:158-160 | an item with neither view image adds no result and costs no chat call |
| Labeler.AutoLabeler.constructor | src/lexicon/labeler.py:76-97 | the ledger starts as the ids recorded in the output file, and no call has been made |
| Labeler.AutoLabeler.LabelView | src/lexicon/labeler.py:99-184 | one view is one `label_image` run: the labels when they are truthy, otherwise the view's part of the message |
| Labeler.AutoLabeler.ProcessEquipment | src/lexicon/labeler.py:154-201 | `process_equipment` follows `ProcessSpec`, front first; the id joins the ledger iff the item is finished, with the item's id and name |
| Labeler.AutoLabeler.Conclude | src/lexicon/labeler.py:186-201 | merge, stripped error, result and ledger entry; no chat call |
| Labeler.AutoLabeler.ProcessAndSave | src/lexicon/labeler.py:205-208 | the result and the chat calls are those of `ProcessSpec` for the item: a finished item is appended as a single row (with a header if the file was new, and to whatever lines the file already holds) and its id is in the ledger; a skipped or failed item changes nothing; the ledger stays what the file records whenever it was so at the start |
| Labeler.AutoLabeler.WorkList | src/lexicon/labeler.py:140-150 | the new items sorted by id as strings, only the first ten in debug mode; each is a candidate with an id |
| Labeler.AutoLabeler.LabelDirectory | src/lexicon/labeler.py:129-214 | for any output file, the file gains one header at most (only when it did not exist) and the records of the saved results, in order; the ledger gains exactly their ids, and keeps matching the file when it matched at the start; the saved results and the chat calls are `SavedSpec` of the work list; at most ten results in debug mode; every saved result carries the id and name of a candidate |
| Labeler.AutoLabeler.LabelItems | src/lexicon/labeler.py:203-212 | the loop, for any output file: the saved results and the chat calls are `SavedSpec` of the items (list order, each finished item saved on its own, a skipped or raising one saving nothing); the file gains the records of exactly those results and the ledger gains exactly their ids |
| App.Similarity | src/lexicon/app.py:40-61 | in [0, 1]; 0 when the cell is empty or NaN or parses to nothing; otherwise the size of Q∩E over the size of Q∪E, with Q the query as a set |
| Frames.Get | src/lexicon/app.py:76-78 | defines `row.get(col, '')`; no contract of its own, used by every reader of a row |
| Frames.Str | src/lexicon/app.py:83-84 | defines `str(cell)`, "nan" for a NaN; no contract of its own, used by Score, HasId and DetailsOf |
| Frames.Present | src/lexicon/app.py:103 | defines `x and pd.notna(x)`: a non-empty string; no contract of its own, used by CellLabels and LowerText |
| Frames.Truthy | src/lexicon/app.py:45 | defines Python truthiness of a cell: NaN is truthy, "" is not; no contract of its own, used by Similarity |
| Frames.IsEmpty | src/lexicon/app.py:71 | defines `DataFrame.empty`: no rows or no columns; no contract of its own, used by the 500 replies |
| App.SimilarityOne | src/lexicon/app.py:53-60 | the similarity is 1 iff the cell has labels and they are exactly the query's |
| App.SimilarityZero | src/lexicon/app.py:45-60 | the similarity is 0 iff the cell is missing or the two sets are disjoint |
| App.SimilarityOfOwnLabels | src/lexicon/app.py:40-61 | a row scores 1 against the labels it was written from |
| App.Score | src/lexicon/app.py:76-87 | a row's entry: its similarity, and matched_labels = Q ∩ the parsed all_labels |
| App.Ranked | src/lexicon/app.py:74-92 | defines the ranked list; no contract of its own, stated by RankedShape |
| App.RankedShape | src/lexicon/app.py:74-92 | min(top_k, #rows) entries in non-increasing similarity, each a row's score; for every top_k and every similarity, the entries with that similarity are a prefix of the rows with it, in row order |
| App.ColumnLabelsMembers | src/lexicon/app.py:100-113 | a tag comes from a column iff some row's non-empty cell there parses to it |
| App.CellLabels | src/lexicon/app.py:102-105 | defines the labels of one cell: the parsed cell when it is a non-empty string, none otherwise; no contract of its own, stated by ColumnLabelsMembers |
| App.ColumnLabels | src/lexicon/app.py:100-113 | defines the union of a column's cell labels over the rows; no contract of its own, stated by ColumnLabelsMembers |
| App.TagsCache | src/lexicon/app.py:95-115 | defines the cache; no contract of its own, stated by TagsCacheMembers |
| App.TagsCacheMembers | src/lexicon/app.py:95-115 | a tag is cached iff some non-empty all_labels or custom_tags cell parses to it |
| App.BuildTagsCache | src/lexicon/app.py:95-115 | the two loops compute the cache |
| App.FirstWithId | src/lexicon/app.py:165-170 | a first row whose id string equals the argument |
| App.HasId | src/lexicon/app.py:165 | defines `df['equipment_id'].astype(str) == str(equipment_id)` for one row ("nan" for a NaN id); no contract of its own, stated by FirstWithIdLeast |
| App.FirstWithIdLeast | src/lexicon/app.py:165-170 | no earlier row has that id, and none at all when there is no match |
| App.DetailsOf | src/lexicon/app.py:172-191 | every label column is the parsed set of its cell; the image keys exist iff the table has those columns |
| App.TextOrEmpty | src/lexicon/app.py:184-191 | defines `str(x) if pd.notna(x) else ''`; no contract of its own, stated by DetailsOf |
| App.SearchTags | src/lexicon/app.py:208 | the search tags are exactly the stripped input tags that are not blank: each is non-empty, stripped and the strip of an input tag |
| App.TagsIn | src/lexicon/app.py:233-242 | only search tags match inside a text |
| App.MatchedTags | src/lexicon/app.py:230-245 | only search tags are matched |
| App.LowerText | src/lexicon/app.py:224-227 | defines the lowered description or name text, "" for an empty or NaN cell; no contract of its own, used by TagMatches |
| App.TagMatches | src/lexicon/app.py:218-245 | defines when one tag matches a row: a parsed label, or a lowered substring of the lowered description or name; no contract of its own, stated by MatchedTagsMember and HitIff |
| App.MatchedTagsMember | src/lexicon/app.py:230-245 | a tag is matched iff it is a search tag that matches the row |
| App.HitOf | src/lexicon/app.py:245-250 | a hit scores 1 |
| App.HitIff | src/lexicon/app.py:221-249 | a row is a hit iff every tag is in its parsed all_labels or occurs, lowercased, in its lowercased description or name |
| App.Hits | src/lexicon/app.py:212-260 | at most one hit per row, each scoring 1 |
| App.HitsStep | src/lexicon/app.py:214-260 | one more row adds its hit, if any, at the end |
| App.CollectHits | src/lexicon/app.py:212-260 | the row loop collects the hits in row order |
| App.HitsSortedAlready | src/lexicon/app.py:263 | sorting the hits by score changes nothing, since they all score 1 |
| App.SearchApp.constructor | src/lexicon/app.py:23-25 | no table and an empty cache before startup |
| App.SearchApp.Startup | src/lexicon/app.py:118-137 | the table and its tag cache; an empty table and cache when the file is missing |
| App.SearchApp.MatchEquipment | src/lexicon/app.py:64-92 | 500 when nothing is loaded, otherwise the ranked top_k |
| App.SearchApp.GetAllTags | src/lexicon/app.py:140-153 | 500 iff the cache is empty; otherwise an Ok reply with the cache strictly ascending, and its size |
| App.SearchApp.GetEquipmentById | src/lexicon/app.py:156-193 | 500 when nothing is loaded or there is no id column; 404 iff no row's id string equals the argument; otherwise an Ok reply with the details of the first such row |
| App.SearchApp.SearchEquipment | src/lexicon/app.py:196-270 | 422 when no `tags` value is given or top_k is outside [1, 100]; 500 when nothing is loaded; 400 when every given tag is blank; otherwise every matching row in row order, total_matches counting them all, results the first top_k |
| Ordering.SortSet | src/lexicon/app.py:148 | `sorted(list(s))`: strictly ascending, exactly the members of s |
| Ordering.Insert | src/lexicon/labeler.py:37 | inserting into an ascending list without duplicates keeps it so and adds the member |
| Ordering.SortedSet | src/lexicon/labeler.py:37 | `sorted(set(xs))`: strictly ascending, with the members of xs |
| Ordering.SortedUnique | src/lexicon/labeler.py:37 | two strictly ascending lists with the same members are equal |
| Ordering.LessTotal | src/lexicon/labeler.py:37 | any two different strings are ordered |
| Ordering.Less | src/lexicon/file_utils.py:117 | defines Python's `<` on strings: code point by code point, a proper prefix first; no contract of its own, stated by LessIrreflexive, LessAsymmetric, LessTransitive and LessTotal |
| Ordering.LessIrreflexive | src/lexicon/file_utils.py:117 | no string is below itself |
| Ordering.LessAsymmetric | src/lexicon/file_utils.py:117 | two strings are never below each other |
| Ordering.LessTransitive | src/lexicon/file_utils.py:117 | the order is transitive |
| Ranking.SortDesc | src/lexicon/app.py:89 | the stable descending sort: non-increasing, a permutation, and equal scores keep their order |
| Ranking.PrefixWithScore | src/lexicon/app.py:90 | cutting a list to a prefix keeps, for each score, a prefix of the entries with that score |
| Ranking.SortDescOfTies | src/lexicon/app.py:263 | when all scores are equal the sort keeps the list as it is |
| Ranking.Take | src/lexicon/app.py:90 | `s[:k]`: the first k elements (all for a large k, and counted from the end for a negative k) |
| Strings.Trim | src/lexicon/file_utils.py:27 | `str.strip`: the result is the input with only whitespace removed before and after it, it neither starts nor ends with whitespace, and it is empty iff the input is all whitespace |
| Strings.Split | src/lexicon/file_utils.py:33 | `str.split(c)`: at least one piece, and no piece contains c |
| Strings.SplitNoSeparator | src/lexicon/file_utils.py:33 | a string without the separator splits into itself alone |
| Strings.SplitAtSeparator | src/lexicon/file_utils.py:33 | a separator after a separator-free prefix splits off exactly that prefix |
| Strings.SplitJoin | src/lexicon/file_utils.py:33 | splitting a join on a separator that no element holds gives the elements back |
| Strings.TrimAll | src/lexicon/file_utils.py:33 | `[p.strip() for p in parts]`: one stripped piece per part, in order |
| Strings.Join | src/lexicon/file_utils.py:132-159 | defines `sep.join(xs)`; no contract of its own, stated by SplitJoin and JoinTrimmed |
| Strings.JoinTrimmed | src/lexicon/file_utils.py:132-159 | a ", "-join of non-empty stripped strings is stripped, and non-empty when there is an element |
| Strings.ReplaceAll | src/lexicon/file_utils.py:32 | defines `s.replace(pat, rep)` (non-overlapping, left to right); no contract of its own, stated by ReplaceAllRemoves, ReplaceAllAbsent and ReplaceAllConcat |
| Strings.ReplaceAllRemoves | src/lexicon/file_utils.py:32 | replacing a character by a string without it leaves no occurrence of it |
| Strings.ReplaceAllAbsent | src/lexicon/file_utils.py:32 | a string without the first character of the pattern is left alone |
| Strings.ReplaceAllConcat | src/lexicon/file_utils.py:32 | the replacement distributes over a concatenation whose second part starts with a character the pattern does not hold |
| Strings.LastIndexOf | src/lexicon/file_utils.py:46 | none iff the character is absent; otherwise a position holding it with no occurrence after it |
| Strings.Lower | src/lexicon/app.py:224 | `str.lower` on ASCII: same length, A-Z lowered, every other character kept |
| NormalizeTags.LongTokens | scripts/normalize_tags.py:17 | keeps only tokens longer than one character, never more tokens than it got |
| NormalizeTags.LongTokensMembers | scripts/normalize_tags.py:17 | a token is kept iff it is longer than one character |
| NormalizeTags.LongTokensOfLong | scripts/normalize_tags.py:17 | tokens all longer than one character are kept as they are, in order |
| NormalizeTags.TokensOnClean | scripts/normalize_tags.py:16 | every token is stripped and holds neither ',' nor '，' |
| NormalizeTags.TokensOn | scripts/normalize_tags.py:16 | defines the stripped pieces after rewriting one alternative comma to ","; no contract of its own, stated by TokensOnClean and TokensOnOfJoin |
| NormalizeTags.Tokens | scripts/normalize_tags.py:16 | defines the tokens with the script's full-width comma; no contract of its own, stated through TokensOn |
| NormalizeTags.Kept | scripts/normalize_tags.py:16-17 | defines the tokens kept from a non-blank cell; no contract of its own, stated by KeptTokens and KeptOfJoin |
| NormalizeTags.FilterTags | scripts/normalize_tags.py:13-18 | '' for NaN or a blank cell; otherwise the kept tokens, in input order with duplicates, joined by ", " |
| NormalizeTags.KeptTokens | scripts/normalize_tags.py:16-17 | every kept token is longer than one character, stripped and holds neither comma |
| NormalizeTags.TokensOnOfJoin | scripts/normalize_tags.py:16 | the tokens of a ", "-join of clean tokens are those tokens |
| NormalizeTags.KeptOfJoin | scripts/normalize_tags.py:16-18 | a ", "-join of kept tokens is not blank and keeps exactly those tokens |
| NormalizeTags.FilterTagsIdempotent | scripts/normalize_tags.py:13-18 | `filter_tags(filter_tags(s)) == filter_tags(s)` |
| NormalizeTags.ApplyColumn | scripts/normalize_tags.py:22 | every row's cell of the column is cleaned, every row kept |
| NormalizeTags.CleanCell | scripts/normalize_tags.py:22 | defines one row's cell replaced by its cleaned value; no contract of its own, used by ApplyColumn |
| NormalizeTags.Cleaned | scripts/normalize_tags.py:20-22 | defines a row whose listed columns were cleaned and whose other cells are unchanged; no contract of its own, established by RewriteColumns |
| NormalizeTags.CleanStep | scripts/normalize_tags.py:22 | cleaning one more column of a row leaves the others as they were |
| NormalizeTags.ApplyColumnStep | scripts/normalize_tags.py:20-22 | one more column rewritten in every row |
| NormalizeTags.RewriteColumns | scripts/normalize_tags.py:20-22 | the column loop with any cleaner: each tag column the table has is cleaned in every row, every other cell is unchanged, and the columns and row count stay |
| NormalizeTags.NormalizeFrame | scripts/normalize_tags.py:11-22 | only the eight listed columns the table has are rewritten by `filter_tags`; all other columns are unchanged |
| AnalyzeLabels.ParseLabels | scripts/analyze_labels.py:26-39 | None or a blank field gives the empty set; otherwise every label is non-empty, stripped and holds neither ',' nor '，' |
| AnalyzeLabels.ParseLabelsOfJoin | scripts/analyze_labels.py:26-39 | a ", "-join of labels free of both commas reads back as their set |
| LabelModel.LabelSet | src/lexicon/file_utils.py:24-34 | every label is non-empty, stripped and free of ","; blank input gives none. It is the body both readers share (scripts/analyze_labels.py:28-39 too), differing only in the comma they rewrite |
| LabelModel.LabelSetOfJoin | src/lexicon/file_utils.py:24-34 | a ", "-join of labels that are safe for the reader reads back as exactly the set of those labels |
| LabelModel.LabelSetAvoids | scripts/analyze_labels.py:37-39 | no label holds the rewritten alternative comma |
| AnalyzeLabels.CustomGuardRedundant | scripts/analyze_labels.py:90-92 | the extra non-empty test on custom_tags changes nothing |
| AnalyzeLabels.Read | scripts/analyze_labels.py:84-92 | defines the labels one row adds to a column: a category's field when the key exists, `custom_tags` only when also non-empty; no contract of its own, stated by CustomGuardRedundant and GatheredMembers |
| AnalyzeLabels.Gathered | scripts/analyze_labels.py:80-92 | defines the union of the parsed fields of a column; no contract of its own, stated by GatheredMembers |
| AnalyzeLabels.GatheredMembers | scripts/analyze_labels.py:80-92 | a label is gathered for a column iff some row's field in it parses to that label |
| AnalyzeLabels.GatheredOfSame | scripts/analyze_labels.py:80-92 | the gathered labels depend only on which rows occur, not on their order or repetition |
| AnalyzeLabels.Partition | scripts/analyze_labels.py:101-143 | unused and unknown are disjoint; together with defined ∩ used they partition defined ∪ used |
| AnalyzeLabels.Unused | scripts/analyze_labels.py:103-105 | defines `defined - used` for a category; no contract of its own, stated by Partition and NoneUnused |
| AnalyzeLabels.Unknown | scripts/analyze_labels.py:141-143 | defines `used - defined` for a category; no contract of its own, stated by Partition and SomeUnknown |
| AnalyzeLabels.TotalUnused | scripts/analyze_labels.py:101-116 | defines the summed count of unused labels over the categories; no contract of its own, stated by TotalUnusedZero |
| AnalyzeLabels.UnknownCategories | scripts/analyze_labels.py:139-145 | defines the categories with an unknown label, in order; no contract of its own, stated by UnknownCategoriesMembers |
| AnalyzeLabels.TotalUnusedZero | scripts/analyze_labels.py:101-116 | the total of unused labels is 0 iff no category has an unused label |
| AnalyzeLabels.UnknownCategoriesMembers | scripts/analyze_labels.py:139-145 | a category is listed iff it has a used label that is not defined |
| AnalyzeLabels.AddRow | scripts/analyze_labels.py:84-87 | the used set of each category grows by the row's field, when the row has the key; other sets stay |
| AnalyzeLabels.Scan | scripts/analyze_labels.py:78-92 | row_count is the number of rows; used_labels[col] is the union of the parsed fields of col over all rows; all_custom_tags is the union over non-empty custom_tags fields |
| AnalyzeLabels.CategoryReports | scripts/analyze_labels.py:101-116 | per category, in order: the defined count, the used count, the unused labels in ascending order; and their total |
| AnalyzeLabels.UnknownReports | scripts/analyze_labels.py:139-151 | the categories with unknown labels, in order, each with its unknown labels ascending; has_unknown iff there is one |
| AnalyzeLabels.Describes | scripts/analyze_labels.py:78-151 | defines when a report describes the rows; no contract of its own, what it implies is stated by ReportSummary |
| AnalyzeLabels.AnalyzeWith | scripts/analyze_labels.py:42-151 | nothing iff the file is missing; otherwise the full report for the given reader |
| AnalyzeLabels.AnalyzeCsv | scripts/analyze_labels.py:42-151 | nothing iff the file is missing; otherwise the full report read with `parse_label_string` |
| AnalyzeLabels.NoneUnused | scripts/analyze_labels.py:101-120 | total_unused is 0 iff every category uses all its defined labels |
| AnalyzeLabels.SomeUnknown | scripts/analyze_labels.py:139-151 | some category is listed iff some category uses a label it does not define |
| AnalyzeLabels.ReportSummary | scripts/analyze_labels.py:101-151 | in a report, total_unused is 0 iff nothing is unused, and has_unknown holds iff something is unknown |

## Left out

- **Filesystem.** `iterdir`, `is_dir`, `glob` and `os.path.exists` are inputs: a listing of entries, each directory's file names, and existence flags. Glob order is unspecified, so the model takes the first name in listing order; the proved properties need only "a member that matches".
- FileUtils.FindEquipmentImages: builds an image path as the directory, "/" and the file name. pathlib's `/` also normalises the directory part (a trailing slash, "." segments); that is not modelled. Directories from `iterdir` carry no trailing slash.
- **The chat call.** `chat` is an oracle: the outcome of the n-th call.
- **The prompt.** The prompt template is left out; it only reaches the chat service.
- **The JSON decoder.** `json.loads` is an oracle giving a value or an error message.
- **Decoded values.** A decoded value is an object, with its keys and labels, or another value, of which only truthiness is kept.
- **Reading label fields.** Non-list category values are not modelled: a category field is always a list. `appearance_looks_like` and `custom_tags` may be a list or a string.
- **Printing.** Every `print`, `tqdm` progress and the debug dumps of the raw response are left out.
- **The environment.** Reading the `DEBUG` variable is left out; it is a boolean parameter.
- **Time stamps.** `datetime.now()` is left out; each item gets a time stamp parameter.
- **Configuration.** `CSV_PATH`, `.env`, `HOST`/`PORT`, the default paths and `uvicorn` are left out.
- **pandas and csv details.** `read_csv` dtype inference is left out, so ids are strings and `astype(str)` is the identity. Quoting and the UTF-8 BOM are left out too. The file is a list of lines of fields, read back by an ideal reader where an empty field is NaN.
- **Rows read by `csv.DictReader`.** A row maps each header to a field, an absent field being `None`. The `restkey` for overlong rows is not modelled.
- FileUtils.LoadProcessedEquipmentIds: treats any read failure as an input `None`. The model does not say which inputs make `read_csv` raise.
- **Save failures.** The exception in `label_directory` that catches a failed save is not modelled; saving always succeeds.
- Labeler.AutoLabeler.constructor: does not model an empty `output_csv`. With an empty path the source skips loading the ledger, and saving would then fail. The model always has an output file.
- Labeler.AutoLabeler.ProcessEquipment: does not model exceptions from the view runs. An exception from `_label_single_image` ("Front image exception: …") is not modelled, since `label_image` never raises. The only exception that stops an item is the merge of a truthy reply that is not an object (`Raised`).
- **Order inside one item.** Within one item, the id is added to the ledger before the save. The model shows the state after both steps, not the order of the two.
- **Floats.** Similarity and match_score are exact ratios of naturals, compared by cross-multiplication. Float rounding is not modelled.
- **Lists built from sets.** `list(set)` appears in matched_labels, the label lists of the details, and query_tags. The model keeps these as sets, because their order in Python is set iteration order.
- **FastAPI.** Routing and JSON encoding are left out. An `HTTPException` is a `Fail(status)` reply.
- **FastAPI validation.** `Query(ge=1, le=100)` and the required `tags` parameter (`Query(...)`) are the 422 reply: a request without any `tags` value is modelled as the empty list. The framework's error body and the ordering of its checks among themselves are not modelled.
- **Unicode.** `str.lower` is modelled on ASCII only, and so are `\d` in the directory pattern and the digit test. `strip` uses Python's full whitespace set.
- **The regular expressions.** They are modelled through functions, not a regex engine. The fenced tier is the leftmost start position whose body has a `{` that is followed, at its first closing `}`, by whitespace and a closing fence.
- **`label_system`.** It is not part of this model. Its label lists are a parameter `defined`, and the prompt reaches only the chat service.
- **The output of `normalize_tags.py`.** The output path, `to_csv` and the read of the input file are left out. The script is a function from table to table.
- **`load_equipment_data`.** It is not part of this model; the loaded table is the input of `App.SearchApp.Startup`.
- **Other files.** The entry points (`cli.py`, `train.py`, `__main__.py`, `__init__.py`) and `example_usage.py` are not part of this model. `example_usage.py` calls an API that `labeler.py` does not have.
