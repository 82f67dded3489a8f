# bookmark-sorter (`cbclean`) in Dafny

This project models the in-memory core of `cbclean`, a tool that cleans a
browser's bookmarks.

The pipeline has three stages:

1. It normalises every URL: lower-case scheme, optional removal of a leading
   `www.`, collapsed slashes in the path, tracking parameters filtered out of
   the query, and the fragment dropped.
2. It deduplicates the bookmarks. Phase 1 collapses exact duplicates keyed by
   `normalized_url or url`. Phase 2 merges same-folder neighbours with
   similar titles.
3. It plans the changes: duplicates go to the trash, and renormalised URLs
   are updated.

Around this pipeline sit several small passes:

- the liveness marker;
- rule-based tagging, by domain and by keyword pattern;
- the batch loop of LLM tagging, with its sanitised and growing label set;
- the per-folder counts of the report;
- the Netscape-HTML export, grouped by folder, by tag or as a tag hierarchy;
- the flattening of Chrome's JSON bookmark tree.

## How the model is built

- One module per source file: `Utils`, `Dedup`, `Propose`, `Normalize`, `Fetch`,
  `ClassifyRules`, `ClassifyLlm`, `Report`, `Apply` and `ChromeReader`.
- Shared modules:
  - `Text` holds Python's string operations (`lower`, `strip`, `split`, `join`, `startswith`) and `sorted(set(...))`, with their properties.
  - `Json` holds decoded JSON values, `dict.get`, `isinstance(x, int)` and `str()`.
  - `Optional` holds `Option`.
  - `UtilsCases` holds the concrete URLs of the test suite.
- A `Bookmark` is a datatype with the fields of the Python dataclass.
- Python loops that change things become Dafny `method`s with `for`/`while` loops:
  - The passes that assign a field of every list element in place work on an `array<Bookmark>` with `modifies`. These are `normalize_bookmarks`, `check_liveness`, `classify_by_rules` and `_apply_labels`.
  - A loop that only builds a list or dictionary builds a `seq` or `map`.
- Each method is proved equal to a specification function. The properties the source promises are proved as lemmas about those functions.
- Foreign code is a parameter of the model:
  - rapidfuzz's four ratios, as reals;
  - the `re` engine: whether a pattern compiles, and `re.search`;
  - the LLM client: the already-decoded reply to each batch.

## Model

| member | source | states |
|---|---|---|
| Dedup.KeyOfLink | src/cbclean/dedup.py:28 | a bookmark with a truthy `url` always has a non-empty key `normalized_url or url` |
| Dedup.ResolveDupe | src/cbclean/dedup.py:60-66 | the result is (a, b) or (b, a); under `prefer_shorter_url` with both keys present the kept key is no longer than the dropped one, and b is kept only when its key is strictly shorter; in every other case a is kept |
| Dedup.ResolveSameKey | src/cbclean/dedup.py:60-66 | two bookmarks with the same key resolve to (first, second), so phase 1 always keeps the earlier one |
| Dedup.TitleSim | src/cbclean/dedup.py:8-16 | the similarity is the largest of the four ratios divided by 100, and lies in [0, 1] when every ratio lies in [0, 100] |
| Dedup.Phase1 | src/cbclean/dedup.py:25-37 | the dictionary loop leaves as survivors the first bookmark of every non-empty key, in first-seen order, and as duplicates every later bookmark with a seen key, in input order |
| Dedup.Phase1Step | src/cbclean/dedup.py:28-37 | one iteration skips a keyless bookmark, stores a new key, or appends a repeat to the duplicates, keeping the loop invariant |
| Dedup.FirstsSnoc | src/cbclean/dedup.py:29-37 | one more bookmark adds itself to the survivors exactly when its key is new and non-empty, and to the duplicates exactly when its key was seen |
| Dedup.KeyedMembers | src/cbclean/dedup.py:28-30 | the keyed bookmarks are exactly the inputs with a non-empty key |
| Dedup.FirstsRepeatsPartition | src/cbclean/dedup.py:27-37 | survivors and duplicates of phase 1 together are, as a multiset, exactly the keyed inputs |
| Dedup.FirstsKeys | src/cbclean/dedup.py:25-40 | no two survivors share a key, and their keys are all the non-empty keys of the input |
| Dedup.FirstsAreFirst | src/cbclean/dedup.py:31-33 | every survivor is the first input bookmark with its key |
| Dedup.UniqueKeysCard | src/cbclean/dedup.py:40 | a list without repeated keys has as many distinct keys as elements |
| Dedup.NoLaterTotal | src/cbclean/dedup.py:41 | the `(folder_path, title)` order is total |
| Dedup.NoLaterTrans | src/cbclean/dedup.py:41 | the `(folder_path, title)` order is transitive |
| Dedup.SortedIsFolderSorted | src/cbclean/dedup.py:41 | a list sorted by `(folder_path, title)` is non-decreasing in `folder_path` |
| Dedup.InsertPosCorrect | src/cbclean/dedup.py:41 | the insertion point splits a sorted list into the entries no later than the new one and the rest |
| Dedup.InsertSorted | src/cbclean/dedup.py:41 | inserting into a sorted list keeps it sorted and adds exactly that element |
| Dedup.SortCorrect | src/cbclean/dedup.py:41 | the sort yields a list sorted by `(folder_path, title)` that is a permutation of its input |
| Dedup.SortKeepsUniqueKeys | src/cbclean/dedup.py:41 | sorting keeps keys distinct |
| Dedup.SortOfSorted | src/cbclean/dedup.py:41 | sorting an already sorted list changes nothing |
| Dedup.MultisetAfterMerge | src/cbclean/dedup.py:49-52 | overwriting the anchor with the kept bookmark and popping the neighbour loses exactly the dropped bookmark |
| Dedup.OrderAfterMerge | src/cbclean/dedup.py:49-52 | a merge keeps the list non-decreasing in `folder_path` |
| Dedup.UniqueAfterMerge | src/cbclean/dedup.py:49-52 | a merge keeps keys distinct |
| Dedup.MergeJustified | src/cbclean/dedup.py:46-51 | every merge is between same-folder bookmarks that both have a URL and similar titles; it drops one of the pair, the neighbour unless shorter keys are preferred, and under that flag one whose key is no shorter than either |
| Dedup.MergeStep | src/cbclean/dedup.py:48-53 | a merge keeps the phase-2 invariant (permutation with the drops, folder order, distinct keys, justified merges) and re-tests the same position against the bookmark just kept |
| Dedup.ScanSkip | src/cbclean/dedup.py:54 | a same-folder neighbour that is not similar is stepped over |
| Dedup.ScanExit | src/cbclean/dedup.py:46-55 | the inner scan stops at the first neighbour in another folder, or at the end, and the outer loop moves to the next anchor |
| Dedup.ScanAnchor | src/cbclean/dedup.py:44-55 | the inner loop for one anchor keeps the phase-2 invariant, advances to the next anchor, never grows the list, and terminates |
| Dedup.Phase2 | src/cbclean/dedup.py:40-55 | the two-index scan (with the anchor refreshed after each merge) ends with kept plus dropped a permutation of its input, a non-empty kept list for non-empty input, folder order and distinct keys preserved, and every drop justified by a merge |
| Dedup.Phase2AsWritten | src/cbclean/dedup.py:42-55 | the scan as the source writes it, with a stale anchor, still returns as many bookmarks, kept plus dropped, as it was given |
| Dedup.Deduplicate | src/cbclean/dedup.py:19-57 | `deduplicate` with the anchor refreshed after each merge (see Findings): kept plus duplicates are exactly the keyed inputs as a multiset; keyless bookmarks are in neither; kept has distinct keys, is non-decreasing in folder, and holds only first-seen bookmarks; the duplicates are the exact repeats followed by the soft merges, each justified; |kept| plus the number of soft merges is the number of distinct keys; kept is empty exactly when no input has a key |
| Dedup.KeptKeyless | src/cbclean/dedup.py:28-30 | a bookmark without key is neither kept nor a duplicate |
| Dedup.CountFacts | src/cbclean/dedup.py:40-57 | the number of kept bookmarks plus the number of soft merges is the number of distinct non-empty keys |
| Dedup.ExactDuplicatesCollapse | tests/test_dedup.py:5-11 | two bookmarks with one key give the first as kept and the second as duplicate |
| Dedup.KeylessSkipped | tests/test_dedup.py:28-31 | a bookmark without any URL gives no kept and no duplicate |
| Dedup.SoftDuplicatesCollapse | tests/test_dedup.py:13-18 | two same-folder bookmarks with different keys and similar titles give one kept and one duplicate |
| Dedup.StaleAnchorLosesBookmark | src/cbclean/dedup.py:44-53 | see Findings: as written, three similar bookmarks a, b, c give kept [a] and duplicates [a, c], losing b; with the anchor refreshed they give [b] and [a, c] |
| Utils.StripWww | src/cbclean/utils.py:19-20 | the host changes exactly when it starts with `www.` in any letter case, and then only its first four characters go |
| Utils.StripWwwNotIdempotent | src/cbclean/utils.py:20 | "www.www.a" becomes "www.a", which would change again, so `strip_www` is not idempotent |
| Utils.FnmatchLike | src/cbclean/utils.py:37-41 | a pattern ending in `*` is a prefix test with the pattern minus the star; any other pattern is an equality test |
| Utils.FilterQuery | src/cbclean/utils.py:23-34 | the loop builds the `&`-join of the kept items |
| Utils.KeptItemsOfNonEmpty | src/cbclean/utils.py:27-33 | dropping empty items, then items whose key matches a pattern, keeps exactly the surviving items |
| Utils.SurvivingProps | src/cbclean/utils.py:27-33 | every kept item is a non-empty input item whose key, the text before the first `=`, matches no pattern |
| Utils.SurvivingAll | src/cbclean/utils.py:27-33 | a list whose every item survives is kept whole, in order |
| Utils.FilteredQueryMeaning | src/cbclean/utils.py:23-34 | an empty query gives ""; otherwise the result is "" when nothing survives, and else its `&`-pieces are exactly the surviving items in their original order |
| Utils.FilteredQueryIdempotent | src/cbclean/utils.py:27-34 | filtering a filtered query again with the same patterns changes nothing |
| Utils.CollapseNoDoubleSlash | src/cbclean/utils.py:72 | collapsing runs of `/` leaves no "//" |
| Utils.CollapseIdentity | src/cbclean/utils.py:72 | a path without "//" is left as it is |
| Utils.NormalizedPathProps | src/cbclean/utils.py:72 | the normalised path is non-empty, has no "//", and normalising it again changes nothing |
| Utils.NormalizePartsMeaning | src/cbclean/utils.py:68-75 | the scheme is lower-cased letter by letter; the host changes only through `strip_www` and only under its flag; the path is non-empty without "//"; the query is `filter_query` of the old one; the fragment is "" under `strip_fragments` and kept otherwise |
| Utils.NormalizePartsIdempotent | src/cbclean/utils.py:68-75 | normalising normalised parts keeps scheme, path, query and fragment, and keeps everything when no `www.` remains to strip |
| Utils.DomainOf | src/cbclean/utils.py:78-83 | the result is None exactly when the host part is empty, and else the host with every letter lower-cased |
| Utils.HostPartStops | src/cbclean/utils.py:65 | the host part ends at the first `/`, `?` or `#` |
| Utils.SplitOfUnsplit | src/cbclean/utils.py:64-75 | splitting a well-formed URL built from its parts gives back those parts |
| Utils.NormalizeOfUnsplit | src/cbclean/utils.py:57-75 | normalising a well-formed URL is reassembling its normalised parts |
| Utils.DomainOfUnsplit | src/cbclean/utils.py:78-83 | the domain of a well-formed URL built from its parts is its lower-cased host |
| UtilsCases.NormalizeWithTracking | tests/test_normalize.py:5-7 | "https://www.example.com//a//b/?utm_source=x&gclid=1&id=42#frag" normalises to "https://example.com/a/b/?id=42" |
| UtilsCases.TrackingQueryFiltered | tests/test_normalize.py:5-7 | in the URL of the tracking test, "utm_source=x&gclid=1&id=42" filtered with the tracking patterns is "id=42" |
| UtilsCases.FilterQueryWithPatterns | tests/test_utils.py:10-13 | "utm_source=x&id=1&gclid=2&keep=y" filtered with `utm_*` and `gclid` is "id=1&keep=y": the matching items go, the others stay in order |
| UtilsCases.KeptSecondFourth | src/cbclean/utils.py:23-34 | a four-item query whose second and fourth items survive the patterns and whose others do not filters to those two items joined by "&" |
| UtilsCases.NormalizeFragmentFirst | tests/test_utils.py:22-25 | "https://www.ex.com//a//b#frag?id=1" normalises to "https://ex.com/a/b" |
| UtilsCases.HostAndPatternCases | tests/test_utils.py:5-7 | a host without `www.` is kept; `utm_*` matches "utm_source", `gclid*` does not, and "ref" matches "ref" exactly |
| UtilsCases.DomainOfNotAUrl | tests/test_utils.py:28-29 | text without a scheme or `//` has no domain |
| UtilsCases.NormalizeModuleExample | tests/test_normalize_module.py:5-8 | "https://www.ex.com/?utm_source=x&id=1" with `["utm_*"]` normalises to "https://ex.com/?id=1" |
| Propose.ProposeChanges | src/cbclean/propose.py:15-26 | the two loops give one trash item per duplicate in order, then one update item per changed bookmark in order; the length is their sum; the output does not depend on `original` |
| Propose.ChangedMembers | src/cbclean/propose.py:24 | the changed bookmarks are exactly the deduplicated ones whose truthy `url` and `normalized_url` differ |
| Propose.ChangedAppend | src/cbclean/propose.py:23-25 | the update items of two lists are those of each, in order |
| Propose.PlanShape | src/cbclean/propose.py:18-26 | the plan is "move_to/_Trash"/"duplicate" for each duplicate's id, then "update_url"/"normalized" for each changed bookmark's id, and nothing else |
| Propose.PlanUpdatesAll | src/cbclean/propose.py:23-25 | every changed bookmark gets an update item |
| Propose.BothActionsPlanned | tests/test_propose.py:5-13 | one duplicate and one renormalised bookmark give exactly a trash item and an update item |
| Normalize.NormalizeBookmarks | src/cbclean/normalize.py:7-11 | the loop leaves every element as the pass makes it, in place, in the same order |
| Normalize.NormalizedAllAt | src/cbclean/normalize.py:8-11 | the pass keeps the length and treats each element on its own |
| Normalize.NormalizeOne | src/cbclean/normalize.py:9-11 | a bookmark without a truthy URL is skipped, and any other one gets its normalised URL |
| Normalize.NormalizedMeaning | src/cbclean/normalize.py:8-11 | a bookmark with a URL gets exactly `normalize_url(url, ...)` with the three flags passed through; one without keeps its `normalized_url`; no other field changes |
| Normalize.NormalizedIdempotent | src/cbclean/normalize.py:8-11 | running the pass twice is running it once |
| Normalize.NormalizesTrackedUrl | tests/test_normalize_module.py:5-8 | the module example ends with `normalized_url` "https://ex.com/?id=1" |
| Normalize.SkipsMissingUrl | tests/test_normalize_module.py:11-14 | a bookmark without URL keeps `normalized_url` None |
| Fetch.Status | src/cbclean/fetch.py:9 | the status is "unknown" exactly when checking is disabled and "unchecked" exactly when it is enabled |
| Fetch.CheckLiveness | src/cbclean/fetch.py:7-12 | every element is updated in place as the pass makes it |
| Fetch.CheckedMeaning | src/cbclean/fetch.py:10-12 | a bookmark with a truthy URL gets the status; one without keeps its `liveness`; no other field changes |
| Fetch.StatusCases | tests/test_fetch.py:5-14 | a linked bookmark gets "unknown" when disabled and "unchecked" when enabled |
| ClassifyRules.CollectTags | src/cbclean/classify_rules.py:28-43 | the per-bookmark loop collects the domain rule's tags, then the tags of every keyword rule that hits, in rule order; nothing without a URL |
| ClassifyRules.AddKeywordTags | src/cbclean/classify_rules.py:35-43 | the keyword loop appends the tags of each rule whose pattern hits the lower-cased title or URL, with a substring test for a pattern that does not compile |
| ClassifyRules.ClassifyByRules | src/cbclean/classify_rules.py:24-45 | every element's tags are overwritten in place with the sorted set of its collected tags, and nothing else changes |
| ClassifyRules.KeywordTagsMembers | src/cbclean/classify_rules.py:35-43 | a tag is collected from the keyword rules exactly when some rule that hits lists it |
| ClassifyRules.ClassifiedSorted | src/cbclean/classify_rules.py:45 | the new tags are strictly sorted, hence duplicate-free, and are exactly the collected tags; only `tags` changes |
| ClassifyRules.NoUrlNoTags | src/cbclean/classify_rules.py:28-45 | a bookmark without a URL ends with no tags, whatever it had |
| ClassifyRules.ClassifiedTags | src/cbclean/classify_rules.py:29-45 | a linked bookmark's tag set is exactly the domain rule's tags for its lower-cased host together with the tags of every keyword rule that hits |
| ClassifyRules.TagsFromRules | src/cbclean/classify_rules.py:25-45 | every resulting tag is listed by some domain or keyword rule |
| ClassifyRules.EmptyRulesNoTags | tests/test_classify_rules_yaml_absent.py:7-14 | with empty rule tables every bookmark ends with tags [] |
| ClassifyRules.DomainRuleApplies | tests/test_classify_rules.py:6-12 | a bookmark at https://docs.python.org/3/ gets the tag "Python" of the rule for its host |
| ClassifyLlm.ChunksOf | src/cbclean/classify_llm.py:103-108 | the `while i < L` loop yields the slices `xs[i:i+n]` |
| ClassifyLlm.ChunksProps | src/cbclean/classify_llm.py:103-108 | for n at least 1 the chunks concatenate to the input, all but the last have length n, and the last has length 1 to n |
| ClassifyLlm.SanitizeLabel | src/cbclean/classify_llm.py:214-236 | the method computes the sanitised label |
| ClassifyLlm.CleanPartsOf | src/cbclean/classify_llm.py:223-233 | the loop over the first three parts keeps each non-empty cleaned segment in order |
| ClassifyLlm.CleanSegment | src/cbclean/classify_llm.py:227-232 | a cleaned segment has at most 32 characters, all letters, digits, `-`, space, `_` or `+` |
| ClassifyLlm.SanitizedWellFormed | src/cbclean/classify_llm.py:214-236 | a blank input or a language word (ru, en, ua, de, lang, language, any case) gives ""; a non-empty result has one to three `/`-segments, each non-empty, at most 32 plain characters |
| ClassifyLlm.ParseResult | src/cbclean/classify_llm.py:200-211 | an object gives its `assignments` when a list, else [], and the `str` of each `new_labels` entry when a list, else []; a list gives itself and no labels; anything else gives nothing |
| ClassifyLlm.AllowedLabels | src/cbclean/classify_llm.py:190-194 | the loop keeps the non-empty sanitised labels that are allowed, in order |
| ClassifyLlm.AllowedOfMembers | src/cbclean/classify_llm.py:191-194 | a label is kept exactly when it is non-empty, allowed and among the sanitised ones |
| ClassifyLlm.ApplyOne | src/cbclean/classify_llm.py:184-197 | one entry is applied to the array in place |
| ClassifyLlm.ApplyLabels | src/cbclean/classify_llm.py:179-197 | `_apply_labels` updates the array in place, entry by entry |
| ClassifyLlm.IgnoredEntries | src/cbclean/classify_llm.py:184-195 | an entry that is not an object, has a non-int index, an index out of range, a non-list labels field or no allowed label changes nothing |
| ClassifyLlm.ApplyAllTouched | src/cbclean/classify_llm.py:183-197 | after any number of entries every bookmark keeps its other fields and old tags, gains only allowed labels, is untouched outside the chunk, and has sorted tags once changed |
| ClassifyLlm.ApplyEntryMerges | src/cbclean/classify_llm.py:183-197 | one entry naming bookmark k sets its tags to the sorted set of its old tags and the entry's allowed labels: strictly sorted, and holding a tag exactly when it was old or one of those labels; every other bookmark is unchanged |
| ClassifyLlm.ApplyAllTags | src/cbclean/classify_llm.py:183-197 | after all entries, bookmark k holds a tag exactly when it held it before or some entry names k and carries that tag as an allowed label |
| ClassifyLlm.AppliedLabelsKept | src/cbclean/classify_llm.py:183-197 | every allowed label of any entry that names bookmark k is among k's final tags, whatever entries come later |
| ClassifyLlm.RoundTags | src/cbclean/classify_llm.py:78-86 | after one batch, bookmark k holds a tag exactly when it held it before or an entry of the parsed reply brings it, checked against the labels allowed once the reply's new labels are added |
| ClassifyLlm.ApplyResultProps | src/cbclean/classify_llm.py:179-197 | a non-list result changes nothing; otherwise old tags are kept, only allowed labels are added, no other field changes and bookmarks outside the chunk are untouched |
| ClassifyLlm.Candidates | src/cbclean/classify_llm.py:38-42 | the candidates are, in order, exactly the bookmarks that do not already have tags under `only_uncertain` |
| ClassifyLlm.CandidatesOf | src/cbclean/classify_llm.py:38-42 | the candidate loop picks those positions |
| ClassifyLlm.GrowAllowed | src/cbclean/classify_llm.py:82-85 | the loop over the new labels adds each non-empty sanitised one to the set |
| ClassifyLlm.GrownProps | src/cbclean/classify_llm.py:82-85 | the set stays sorted and only grows, by non-empty sanitised new labels, at most one per label |
| ClassifyLlm.NextAllowedProps | src/cbclean/classify_llm.py:81-85 | a batch leaves the set unchanged without `allow_new_labels` and otherwise grows it by at most `max_new_labels_per_batch` non-empty sanitised labels |
| ClassifyLlm.BatchRound | src/cbclean/classify_llm.py:67-86 | one batch reads the reply, grows the allowed set, then applies the assignments against the grown set |
| ClassifyLlm.RunBatches | src/cbclean/classify_llm.py:66-86 | the batch loop runs one round per chunk of the candidates |
| ClassifyLlm.BatchesProps | src/cbclean/classify_llm.py:64-86 | over all batches the allowed set only grows (and stays fixed without `allow_new_labels`), and every bookmark keeps its old tags, gains only allowed labels and is untouched unless a candidate |
| ClassifyLlm.ClassifyByLlm | src/cbclean/classify_llm.py:12-86 | `classify_by_llm` with the client present updates the array as the batch loop specifies |
| ClassifyLlm.ClassifyByLlmProps | src/cbclean/classify_llm.py:33-86 | no labels without `allow_new_labels` is a no-op; a bookmark that already has tags under `only_uncertain` is never changed; every bookmark keeps its old tags and gains only labels of the final allowed set, which contains the given labels |
| ClassifyLlm.EmptyRepliesChangeNothing | tests/test_classify_llm_edges.py:20-28 | replies that are an empty object assign nothing |
| Report.ByFolder | src/cbclean/report.py:39-44 | the counting loop over a dictionary, then its items sorted by key, gives the folder counts |
| Report.CountOne | src/cbclean/report.py:42-43 | one increment `m[key] = m.get(key, 0) + 1` keeps the counter equal to the counts of the bookmarks seen |
| Report.CountPresent | src/cbclean/report.py:41-43 | a folder key that occurs is counted at least once |
| Report.TotalCovers | src/cbclean/report.py:40-43 | counting under distinct keys that cover every bookmark counts each bookmark once |
| Report.ByFolderKeys | src/cbclean/report.py:42-44 | the keys are strictly ascending and are exactly the folder keys of the bookmarks |
| Report.ByFolderCounts | src/cbclean/report.py:41-43 | each count is the number of bookmarks with that key, and at least one |
| Report.ByFolderTotal | src/cbclean/report.py:40-43 | the counts add up to the number of bookmarks |
| Report.UnfiledCounted | src/cbclean/report.py:42 | a bookmark with an empty `folder_path` is counted under "Bookmarks" |
| Report.Context | src/cbclean/report.py:24-29 | `total` and `duplicates` are the two list lengths, and the folder counts add up to `total` |
| Json.Get | src/cbclean/chrome_reader.py:20-24 | `dict.get` finds a value exactly when the key is present, and the value stored under it |
| Json.Values | src/cbclean/chrome_reader.py:32 | `values()` lists one value per distinct key, the one stored under it |
| Json.AsInt | src/cbclean/classify_llm.py:188 | `isinstance(x, int)` holds exactly for integers and booleans |
| ChromeReader.Children | src/cbclean/chrome_reader.py:29 | every node taken from `node.get("children", []) or []` is a proper part of the folder node, so the recursive walk ends; children that are a true or non-zero number are the raising case of `Walk` |
| ChromeReader.WalkIsFlat | src/cbclean/chrome_reader.py:17-30 | `walk` raises exactly when a folder reached through folders has children that are a true or a non-zero number; otherwise it appends to `results` exactly the pre-order list of url nodes reached through folders |
| ChromeReader.RaisesAllOf | src/cbclean/chrome_reader.py:29-30 | one raising child anywhere in a folder's children makes the walk over them raise |
| ChromeReader.FalsyChildren | src/cbclean/chrome_reader.py:29 | a folder whose "children" is missing or falsy adds nothing and does not raise |
| ChromeReader.FlatCount | src/cbclean/chrome_reader.py:15-30 | the output has one bookmark per url node reached through folders |
| ChromeReader.FlatProps | src/cbclean/chrome_reader.py:25-28 | every bookmark has the given profile and no tags, and its folder path extends the path it was reached with |
| ChromeReader.IgnoredNodes | src/cbclean/chrome_reader.py:18-26 | a non-object node, or one whose type is neither "url" nor "folder", yields nothing |
| ChromeReader.BareUrlNode | src/cbclean/chrome_reader.py:21-25 | a "url" node without other members gives one bookmark with id "", title "", url None, the current path and the profile |
| ChromeReader.ReadChromeJson | src/cbclean/chrome_reader.py:12-34 | the loop over the roots computes what `read_chrome_json` returns for the decoded file, or None where it raises: a non-object file, `roots` or root, or a walk that raises |
| ChromeReader.WalkRootsIsFlat | src/cbclean/chrome_reader.py:32-33 | walking the roots into one list fails exactly when a root is not an object or its walk raises, and otherwise gives the roots' url nodes one root after another |
| ChromeReader.ChromeBookmarksFlat | src/cbclean/chrome_reader.py:14-34 | when the roots are an object, the result is each root's pre-order url nodes in turn, walked from the root's own name |
| ChromeReader.NamedRootDoubled | src/cbclean/chrome_reader.py:28-33 | a root folder named n starts at path n and so hands "n/n" to its children |
| Apply.HtmlEscapeAppend | src/cbclean/apply.py:47-48 | escaping distributes over concatenation |
| Apply.HtmlEscapeOne | src/cbclean/apply.py:47-48 | the four chained replacements turn one character into its own entity or leave it |
| Apply.HtmlEscapeIsEscapeEach | src/cbclean/apply.py:47-48 | `html_escape` is replacing each input character independently |
| Apply.HtmlEscapeSafe | src/cbclean/apply.py:47-48 | the output has no `<`, `>` or `"`, and every `&` starts one of &amp; &lt; &gt; &quot; |
| Apply.UnescapeOfEscape | src/cbclean/apply.py:47-48 | decoding the four entities recovers the input |
| Apply.GroupKeysCases | src/cbclean/apply.py:51-64 | "tag" gives exactly the first tag or "Uncategorized"; "tag-all" gives all tags in order or just "Uncategorized"; any other mode gives `folder_path` or "Bookmarks" |
| Apply.AnchorLines | src/cbclean/apply.py:37-42 | the item loop writes the anchors of the items |
| Apply.AnchorsProps | src/cbclean/apply.py:37-42 | exactly the items with a URL get an anchor, one each, in order |
| Apply.AddKeys | src/cbclean/apply.py:33-34 | `setdefault(key, []).append(b)` for each key of one bookmark |
| Apply.AddToGroupsAt | src/cbclean/apply.py:33-34 | each group gains the bookmark once per occurrence of its key |
| Apply.GroupAll | src/cbclean/apply.py:30-34 | the grouping loop builds `by_folder` and meets its keys in order |
| Apply.GroupedIsMembers | src/cbclean/apply.py:30-34 | every group holds the bookmarks with that key in input order; a key without group has none |
| Apply.GroupedKeys | src/cbclean/apply.py:30-34 | the groups are exactly the keys of the bookmarks |
| Apply.MembersMeaning | src/cbclean/apply.py:30-34 | a bookmark is in a group exactly when it has that key |
| Apply.FlatKeysProps | src/cbclean/apply.py:35 | groups are emitted in strictly ascending key order, one per key of some bookmark |
| Apply.EmitGroups | src/cbclean/apply.py:35-43 | each group is a heading, its anchors in insertion order and a closing line |
| Apply.FlatExport | src/cbclean/apply.py:30-43 | the flat export writes the groups in ascending key order, each with its members in input order |
| Apply.GroupWithoutUrls | tests/test_apply_export.py:75-82 | a group whose bookmarks have no URL still gets its heading but no anchor |
| Apply.PathOf | src/cbclean/apply.py:20-22 | a tag's path has at least one segment and no empty segment |
| Apply.PathOfJoin | src/cbclean/apply.py:20 | a tag made of plain segments joined by `/` has exactly those segments as path |
| Apply.LookupPut | src/cbclean/apply.py:25 | `setdefault` stores a node under its name and leaves other names alone |
| Apply.PutNames | src/cbclean/apply.py:25 | a new name joins a node's names at the end, and an existing one keeps its place |
| Apply.InsertValid | src/cbclean/apply.py:23-26 | storing a bookmark keeps names distinct at every node |
| Apply.InsertItemsAt | src/cbclean/apply.py:23-26 | storing at a path adds the bookmark to that node's items only |
| Apply.InsertKeysItemsAt | src/cbclean/apply.py:19-26 | storing under several keys adds the bookmark once per key whose path is the node's |
| Apply.StoreUnderKeys | src/cbclean/apply.py:19-26 | the key loop of one bookmark stores it under each key's path |
| Apply.BuildTree | src/cbclean/apply.py:16-26 | the tag-hier loop builds the tree of all bookmarks |
| Apply.TreeOfItems | src/cbclean/apply.py:16-26 | every node holds, in input order, each bookmark once per tag whose path leads to it |
| Apply.TreeOfValid | src/cbclean/apply.py:16-26 | every node's names are distinct, so shared prefixes share one node |
| Apply.StoredMeaning | src/cbclean/apply.py:18-26 | a bookmark is stored at a node exactly when one of its tag-all keys has that node's path |
| Apply.TreeOfRoot | src/cbclean/apply.py:20-26 | the root itself holds no items |
| Apply.TreeLinesOrder | src/cbclean/apply.py:68 | `_write_tree` visits each child name once, in ascending order |
| Apply.WriteTree | src/cbclean/apply.py:67-78 | each child is written as its heading, its sub-tree, then its own anchors, then a closing line |
| Apply.SharedPrefixNodes | tests/test_apply_export.py:102-126 | tags "Docs/Reference", "Dev/Linux" and "Dev/Kubernetes" give two top-level nodes, so "Dev" is written once |
| Apply.SharedPrefixItems | tests/test_apply_export.py:102-126 | each bookmark sits under the leaf of each of its tags, and the shared "Dev" node holds none |
| Apply.ExportBookmarksHtml | src/cbclean/apply.py:8-44 | the file is the fixed preamble, then the tag-hier tree or the flat groups, then the closing line |
| Text.JoinOfSplit | src/cbclean/utils.py:27-34 | joining the pieces of a split restores the string |
| Text.SplitOfJoin | src/cbclean/classify_llm.py:236 | splitting a join of separator-free pieces gives them back |
| Text.SortedSetCorrect | src/cbclean/classify_rules.py:45 | `sorted(set(xs))` is strictly ascending and has exactly the elements of xs |
| Text.StrictlySortedUnique | src/cbclean/report.py:44 | two strictly sorted lists with the same elements are equal |

## Left out

- `cli.py`, `config.py`, `storage.py`, `backup.py`, `classify_embed.py` and `cluster.py` are not part of this model: they are orchestration, configuration, sqlite and file I/O, and empty stubs.
- `render_reports` template rendering and file writing: I/O. Only the context's figures are modelled.
- The file handle of `export_bookmarks_html` and `ensure_dir`: the model returns the written lines, one per element, instead of writing a file.
- `urlsplit` and `urlunsplit` are simplified to splitting at the first `:`, the `//` authority, the first `#` and the first `?`. Scheme validation, IPv6 hosts and port parsing are not modelled.
- The exception path of `normalize_url` and `domain_of` (utils.py:64-67, 79-83): the model's split never fails.
- `Text.Lower` folds only ASCII letters; Python's `lower()` also folds non-ASCII letters.
- `Text.IsSpace` is an approximation of Python's `str.isspace`, and `Text.LexLe` compares code points as Python does. Unicode normalisation is not modelled.
- Dedup.TitleSim: rapidfuzz is not modelled. Its four ratios are a function parameter, reals bounded in 0..100 where that matters, and threshold comparison is on reals rather than floats.
- The `re` engine of `classify_rules` is a pair of parameters: whether a pattern compiles, and `re.search`.
- `load_rules` reads YAML from disk and is not part of this model. The rule tables are given; the `lang` table is never read by `classify_by_rules`.
- `classify_by_llm`'s client set-up, `_build_prompt`, `_chat`, `_extract_json` and `json.loads`: network and foreign calls. The model takes the already-decoded reply of each batch as a function of the batch number and the sorted allowed labels. The early returns for a missing client or API key are this client's absence.
- `_resolve_labels` reads a rules file from disk. The model takes its result, the resolved label list, as a parameter.
- `Json.Str` approximates Python's `str()` of non-string values: floats are carried as text, and containers print without Python's exact spacing and quoting.
- `read_bookmarks_html`: it depends on BeautifulSoup's DOM.
- ChromeReader.ReadChromeJson: `read_chrome_json` raises `AttributeError` when the decoded file, its `roots` or one root is not an object (chrome_reader.py:14, 32-33), and `TypeError` when a folder's children are a true or a non-zero number (chrome_reader.py:29). The model returns None in all these cases and does not tell the exceptions apart.
- ChromeReader.UrlBookmark: `id`, `name` and `url` members that are not strings are stored as their `str`, where Python would store the value itself.
- Apply.Insert: the tag-hier dictionary keeps bookmarks under `"__items__"` beside the child names. A tag segment literally named `__items__` collides with it in the source and not in the model, where items and children are separate fields.
- Apply.BuildTree: the nested dictionary mutated through `setdefault` and a moving `node` reference is modelled as a tree value rebuilt along the path. Sharing of sub-dictionaries is not modelled (the source creates none).
- Dedup.SortByFolderTitle: Python's `list.sort` is stable. The model's insertion sort is proved sorted by `(folder_path, title)` and a permutation of its input, but it is not proved to keep bookmarks with equal `(folder_path, title)` in input order.
- Deduplicating the kept output again is not proved to return the same kept list. That depends on the similarity function, which is an arbitrary parameter here and need not be transitive.
- The in-place pass of `classify_by_llm` works on positions into the array, standing for the aliasing between `items` and `bookmarks`.

## Findings

| source | as written | input that shows it | evidently intended | confidence | as-written member | corrected member |
|---|---|---|---|---|---|---|
| src/cbclean/dedup.py:44-53 | the anchor `a` is read once per outer step; after `remaining[i] = keep` the scan keeps comparing and resolving against the old `a`, so a merge can write the old `a` back over the kept bookmark | `prefer_shorter_url`; three bookmarks a, b, c in one folder, sorted in that order, all pairwise similar, with keys of lengths 0 < len(b) < len(a) < len(c): kept is [a] and duplicates are [a, c], so b is in neither list and a is in both | re-test the bookmark just kept (as the anchor's slot holds it) against the next neighbour, giving kept [b] and duplicates [a, c] | not executed | Dedup.StaleAnchorLosesBookmark | Dedup.Deduplicate |
