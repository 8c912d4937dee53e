# TREC report populator, modelled in Dafny

This project models the core of a tool that fills in the Texas Real Estate
Commission (TREC) Property Inspection Report form from a JSON inspection
report. The tool exists twice:

- the Python class `CompleteTRECPopulator` in `src/populate_trec_complete.py`;
- a browser copy of the same pipeline in `app.js`.

Both run the same pipeline:

1. **Filter.** Line items with no status and no comments are dropped.
2. **Resolve.** Each remaining line item's name is looked up in
   `LINE_ITEM_MAPPING`, an ordered table from names to a TREC item
   `(code letter, section index, title)`. A word-overlap fallback backs up the lookup.
3. **Locate.** The TREC item is searched among the siblings after the N-th
   section title. The search tries a code match first, then a title keyword,
   then takes the section's first item.
4. **Reconcile.** The first line item to claim a `section_code` key checks
   one status box and replaces the item's comments. Later claimants of the
   same key append an "Additional Finding" block.
5. **Clean up.** The Python populator removes sections with no data. Both
   write the page count into every page-count input.

The comment renderer (`format_all_comments` / `formatAllComments`) is modelled
as a list of fragments, not as HTML text: comment paragraphs, photo and
video containers, thin dividers and the "Additional Finding" separator.

Modules, one per file:

- `Wrappers`: the `Option` type.
- `Text`: whitespace stripping, ASCII case mapping, Python's `split()`,
  JavaScript's `split(/\s+/)`, substring search, and decimal rendering.
- `Inspection`: the report's sections, line items, comments, photos and
  videos, and the empty-item filter.
- `JsonValues`: JSON values, `get_value_from_path`, Python truthiness, and
  the non-date `transform_value`.
- `Fragments`: `format_comment_text` and `format_all_comments` (shared by
  both sources), the stable sort by `order`, and block counting.
- `Form`: the template as a flat sequence of sibling nodes. It holds item
  lookup (`find_trec_item` / `findTrecItem`), the status checkbox, the
  removal of empty sections, and the page count.
- `Mapping`: both `LINE_ITEM_MAPPING` tables in insertion order, dictionary
  lookup, both fuzzy fallbacks, and how each populator resolves a name.
- `Populator`: `populate_all_sections` written as a fold over the report.
  This is the specification. The class `TrecPopulator` has the Python
  methods, which change the form in place, and each is proved against that
  specification.
- `Browser`: the same for `app.js` (the `TrecDocument` class), plus lemmas
  comparing the two populators.
- `Claims`: the Python loop written once over any keying of
  `processed_items`. It states what every item's comments hold after the
  whole report, for the `section_code` key as written and for a key naming
  the located item.

What the model shows about the code as written:

- **Python never uses its fuzzy fallback.** `LINE_ITEM_MAPPING.get` returns
  `None` both for the skip entries and for absent names, so both are skipped.
  The fallback branch cannot run, because a tuple in the table is always
  truthy.
- **The Python fallback would crash if it ran.** Unless an earlier entry
  matches, it reaches the `None` entry "Report Context", and unpacking that
  entry raises. It can never reach its `return None`.
- **The browser fallback never matches.** `split()` with no separator
  gives a single word, so two word sets never share two words.
- **A name inherited from `Object.prototype` throws in the browser.** For
  example, a line item called "constructor" makes the browser lookup return
  a function, and destructuring that throws. Python skips the same item.
- **The browser writes an empty rendering.** On a first claim it replaces
  the comments even when they render to nothing. On a later claim it appends
  the separator even when the new comments render to nothing. Python writes
  nothing in both cases.
- **A later line item can erase an earlier one.** The claim is keyed by
  section and code, not by the item found. When two different keys land on
  the same form item, both are first claims. The second replaces the
  first's comments instead of following them. This happens when at least
  one of the two codes is missing from the section and the keyword or
  first-item fallback lands on the item the other line item found. Both
  populators do it (see "## Findings").
- **The two populators append differently when a key is claimed again.**
  Python appends to the item stored for the key. The browser appends to the
  item it has just located. The model keeps the two apart, but no lemma
  shows them differing on the tables as written. In both tables a
  `(section, code)` pair always comes with the same title, so both lookups
  find the same item.

## Model

| member | source | states |
|---|---|---|
| Text.Strip | src/populate_trec_complete.py:381 | `strip()` / `trim()`: the result is no longer than the input and neither starts nor ends with whitespace |
| Text.StripIsInfix | src/populate_trec_complete.py:452 | the stripped string is the input with only blank characters removed from its front and back |
| Text.StripEmptyIffBlank | src/populate_trec_complete.py:385 | a stripped location is empty exactly when the location was all whitespace |
| Text.WordsEmptyIffBlank | src/populate_trec_complete.py:456 | `split()` finds no word exactly when the string is all whitespace |
| Text.Words | src/populate_trec_complete.py:456 | Python's `split()` without a separator: every piece is non-empty and holds no whitespace |
| Text.WordsLower | src/populate_trec_complete.py:456 | splitting a lower-cased title gives the lower-cased words of the title |
| Text.RegexSplit | app.js:516 | `split(/\s+/)` gives at least one piece, and every piece is empty or a word. The first piece is empty exactly when the string is empty or starts with whitespace. There is a single piece exactly when the string has no whitespace |
| Text.RegexSplitAgreesWithWords | app.js:516 | on a string with no leading or trailing whitespace, `split(/\s+/)` gives the same words as Python's `split()` |
| Text.LeadingSpaceGivesEmptyKeyword | app.js:516-521 | a title with leading whitespace gives an empty first keyword, and every title text contains it |
| Text.NatToString | src/populate_trec_complete.py:696 | `str(n)` of a natural number is non-empty, all digits, and starts with '0' only for 0 |
| Text.NatToStringRoundTrip | src/populate_trec_complete.py:696 | reading the digits of `str(n)` back gives `n` |
| Text.IntToStringRoundTrip | src/populate_trec_complete.py:368 | reading `str(i)` of an integer back, sign included, gives `i` |
| Inspection.IsEmptyItem | src/populate_trec_complete.py:466-470 | an empty item has no comments, and a status of "" is present, so an item carrying it is not empty |
| Inspection.NonEmptyItems | src/populate_trec_complete.py:548 | an item is kept exactly when it is in the section and is not empty (status None and no comments) |
| Inspection.AllEmptyFiltersToNothing | src/populate_trec_complete.py:548-552 | a section whose items are all empty has nothing left to process |
| Inspection.NonEmptyItemsAppend | src/populate_trec_complete.py:548 | the filter works item by item: filtering `a + b` is filtering `a`, then `b` |
| Inspection.EmptyItemIsDropped | src/populate_trec_complete.py:466-470 | an empty item contributes nothing wherever it stands in a section |
| JsonValues.GetValueFromPath | src/populate_trec_complete.py:343-351 | the cursor walk returns the value at the path, or None at the first step that is not a dict holding the key; an empty path returns the input |
| JsonValues.ValueAtConcat | src/populate_trec_complete.py:345-350 | following `p + q` is following `p`, then `q` from where `p` ended |
| JsonValues.ValueAtOfNull | src/populate_trec_complete.py:349-350 | nothing can be reached from None |
| JsonValues.ValueAtStep | src/populate_trec_complete.py:347-348 | a value found one step past `p` came from a dict at `p` that holds the key |
| JsonValues.TransformValue | src/populate_trec_complete.py:353-368 | without a date transform, the result is "" exactly for None or "", a string is returned unchanged, and booleans read `True` / `False` |
| JsonValues.TransformNumberRoundTrip | src/populate_trec_complete.py:368 | a number comes out as a decimal string that reads back as the number |
| JsonValues.Get | src/populate_trec_complete.py:521-524 | `get(key, default)` gives the default or one of the object's own values, and always the default on a value that is not an object |
| JsonValues.Truthy | src/populate_trec_complete.py:520-525 | a string is truthy exactly when it writes a non-empty value, a number exactly when it does not write "0", and None is never truthy |
| Fragments.FormatCommentText | src/populate_trec_complete.py:378-391 | at most two paragraphs, and none exactly when the stripped location and all three text fields are empty |
| Fragments.FormatCommentTextParts | src/populate_trec_complete.py:380-389 | the location paragraph comes first; the text paragraph is the first non-empty of `text`, `commentText`, `value` |
| Fragments.InsertByOrder | src/populate_trec_complete.py:399 | inserting into a list sorted by `order` keeps it sorted, one element longer, with nothing new but the inserted comment |
| Fragments.InsertByOrderPermutes | src/populate_trec_complete.py:399 | insertion adds exactly the inserted comment (multiset) |
| Fragments.InsertByOrderStable | src/populate_trec_complete.py:399 | insertion keeps comments of equal order in their relative order, the inserted one first among its order |
| Fragments.SortByOrder | src/populate_trec_complete.py:399 | the sorted comments are in ascending `order` and as many as the input |
| Fragments.SortByOrderContents | app.js:598 | the sort is a permutation and is stable: for every order value, the comments with that order keep their input order |
| Fragments.PhotoBlocks | src/populate_trec_complete.py:409-417 | one photo container per photo with a non-empty url, and nothing else |
| Fragments.VideoBlocks | src/populate_trec_complete.py:419-425 | one video container per video with a non-empty url, and nothing else |
| Fragments.PhotoBlocksCover | src/populate_trec_complete.py:410-417 | every photo with a url has its container, showing its caption or else its description |
| Fragments.VideoBlocksCover | src/populate_trec_complete.py:420-425 | every video with a url has its container |
| Fragments.FormatAllComments | src/populate_trec_complete.py:393-430 | the loop's output is the rendering of the comments sorted by order: per comment its text block, photos and videos, with a divider between consecutive comments; an empty list gives nothing |
| Fragments.AppendCommentBlock | src/populate_trec_complete.py:404-425 | one comment's turn appends its text block, then its photo containers, then its video containers |
| Fragments.AppendPhotos | app.js:610-620 | the photo loop appends exactly the photo blocks |
| Fragments.AppendVideos | app.js:623-631 | the video loop appends exactly the video blocks |
| Fragments.JoinBlocksPrefix | src/populate_trec_complete.py:427-428 | each further comment adds a divider and then its block |
| Fragments.CommentBlock | src/populate_trec_complete.py:404-425 | a comment's block (text, then photos, then videos) has no divider and one media container per photo or video with a url |
| Fragments.JoinBlocksCounts | src/populate_trec_complete.py:402-428 | n comments in any order give n - 1 dividers and one container per media url |
| Fragments.UrlCountSort | src/populate_trec_complete.py:399 | sorting does not change how many media urls the comments hold |
| Fragments.Render | app.js:595-639 | `formatAllComments` (and `format_all_comments`) of n comments has exactly n - 1 dividers and exactly one media container per photo or video with a url |
| Fragments.RenderEmptiness | src/populate_trec_complete.py:395-396 | the rendering is empty exactly when there is no comment, or a single comment with no location, no text and no media url |
| Form.TitlePositions | src/populate_trec_complete.py:434 | exactly the positions of the section titles, in document order |
| Form.BoundaryFrom | src/populate_trec_complete.py:442-447 | the sibling walk stops at the first section title or the end of the page, and passes nothing but other elements |
| Form.ItemsBetween | src/populate_trec_complete.py:445-446 | exactly the item positions in the range, in increasing order |
| Form.FirstCode | src/populate_trec_complete.py:450-453 | the first item whose stripped code reads `code.`; no earlier item matches |
| Form.FirstKeyword | src/populate_trec_complete.py:456-462 | the first item whose title, with the code prefix removed and lower-cased, contains some keyword; no earlier item does |
| Form.Choose | src/populate_trec_complete.py:449-464 | the choice is one of the collected items, and there is one exactly when items were collected |
| Form.Locate | src/populate_trec_complete.py:432-464 | an answer is always the position of an item |
| Form.FindItem | app.js:491-528 | `findTrecItem`'s walk and three tries compute the lookup specification |
| Form.ChooseItem | src/populate_trec_complete.py:449-464 | the three tries (code, then keyword, then first item) compute the choice |
| Form.ScanByCode | src/populate_trec_complete.py:450-453 | the code loop stops at the first matching item, or runs past all of them |
| Form.ScanByKeyword | app.js:517-525 | the keyword loop stops at the first item whose title holds a keyword, or runs past all of them |
| Form.SiblingItems | app.js:496-505 | the `nextElementSibling` walk collects the items up to the next title or the end of the page |
| Form.SectionItemsAreInSection | src/populate_trec_complete.py:438-447 | the walk collects exactly the items of the N-th section |
| Form.LocateAnswersInSection | src/populate_trec_complete.py:435-436 | the lookup answers exactly when the N-th section exists and has an item, and it answers with an item of that section |
| Form.LocatePrefersCode | src/populate_trec_complete.py:450-453 | if some item of the section has the code, the answer has the code and no earlier item of the section does |
| Form.LocateThenKeyword | src/populate_trec_complete.py:455-462 | with no code match in the section, a keyword match wins, and no earlier item of the section matches a keyword |
| Form.LocateThenFirst | src/populate_trec_complete.py:464 | with neither kind of match, the answer is the section's first item |
| Form.StatusIndex | src/populate_trec_complete.py:372-373 | after upper-casing, I, NI, NP and D name boxes 0 to 3 (in any letter case); every other status gives -1 |
| Form.WithStatusChecked | src/populate_trec_complete.py:374-376 | exactly the box the status names is checked, when there are enough boxes; every other box keeps its state |
| Form.StatusCheckIdempotent | app.js:576-578 | checking the same status twice is the same as checking it once |
| Form.CheckStatusAt | src/populate_trec_complete.py:370-376 | only item `j`'s checkboxes change, no box is unchecked, and a form without a `.checks` at `j` is unchanged |
| Form.SetContentAt | src/populate_trec_complete.py:619-621 | only the inline comments box of item `j` changes, and it now holds the new content; checkboxes and editability are kept |
| Form.HasData | src/populate_trec_complete.py:660-669 | an element that holds data is an item |
| Form.CheckedStatusGivesData | src/populate_trec_complete.py:370-376 | checking a status that names an existing box gives the item data, and an item with data keeps it |
| Form.SectionScan | src/populate_trec_complete.py:654-670 | the has-data walk finds data exactly when an item before the next title or page end has visible editable comment text or a checked box |
| Form.Prune | src/populate_trec_complete.py:644-687 | the removal never lengthens the form or adds an element, and a form with no title is unchanged |
| Form.RemoveEmpty | src/populate_trec_complete.py:644-687 | `remove_empty_sections` never lengthens the form, and afterwards every title left heads a section with data |
| Form.PruneStep | src/populate_trec_complete.py:672-687 | one sibling of the removal: a title is kept only when its section has data; items of a dropped section go; other elements stay |
| Form.PruneSiblings | src/populate_trec_complete.py:644-687 | the single-pass walk computes the removal of empty sections |
| Form.PruneIsWellPruned | src/populate_trec_complete.py:672-687 | after the removal, every remaining title heads a section with data |
| Form.PruneKeepsWellPruned | src/populate_trec_complete.py:648-672 | a form whose every title heads a section with data is left unchanged |
| Form.RemoveEmptyIdempotent | src/populate_trec_complete.py:644-687 | removing empty sections a second time removes nothing |
| Form.PruneKeepsData | src/populate_trec_complete.py:660-669 | items holding data are never removed or reordered |
| Form.PruneKeepsFixed | src/populate_trec_complete.py:676-684 | the removal only drops titles and items; every other element stays, in order |
| Form.RemoveEmptyKeepsData | src/populate_trec_complete.py:644-687 | `remove_empty_sections` keeps every item with data and every element that is neither a title nor an item, and leaves only titles of sections with data |
| Form.PruneSplit | src/populate_trec_complete.py:648-652 | each section is handled on its own: the removal of a form cut at a title or page end is the removal of each part |
| Form.PruneRun | src/populate_trec_complete.py:676-684 | a run without titles or page ends is kept whole when its section is kept, and loses its items when its section is dropped |
| Form.PopulatedSectionKept | src/populate_trec_complete.py:672-675 | a section with data survives unchanged, title and every element, in place between the removals before and after it |
| Form.EmptySectionDropped | src/populate_trec_complete.py:676-687 | a section without data loses its title and its items; its other elements stay, in place between the removals before and after it |
| Form.RemoveEmptyKeepsPages | src/populate_trec_complete.py:686-687 | removing sections never removes a page |
| Form.CountPages | src/populate_trec_complete.py:691-692 | the number of pages is at most the number of elements, and zero exactly when no element ends a page |
| Form.WithPageCount | src/populate_trec_complete.py:694-696 | every page-count input shows the value, and every other element is unchanged |
| Form.WithPageCountKeepsPages | src/populate_trec_complete.py:694-696 | writing the page count does not change the number of pages |
| Form.CountPagesOfLandmarks | src/populate_trec_complete.py:691-692 | the page count depends only on the form's structure, which populating keeps |
| Form.WithPageCountKeepsWellPruned | src/populate_trec_complete.py:702 | writing the page count does not bring back an empty section |
| Mapping.Lookup | src/populate_trec_complete.py:85-163 | a dictionary display binds a name to the value of its last entry with that name, and has no value for a name absent from every entry |
| Mapping.LookupAppend | app.js:4-50 | looking a name up in `a + b` finds it in `b` first, else in `a` |
| Mapping.PyTableShape | src/populate_trec_complete.py:85-163 | the Python table has 60 entries; exactly "Report Context" and "General Information" map to None, and every other entry maps to a one-letter code A to L of one of the six sections |
| Mapping.JsTableShape | app.js:4-50 | the browser table has 45 entries, each mapping to a one-letter code A to L of one of the six sections |
| Mapping.PyAbsent | src/populate_trec_complete.py:85-163 | a name absent from every block of the Python table is absent from the table |
| Mapping.JsAbsent | app.js:4-50 | a name absent from every block of the browser table is absent from the table |
| Mapping.PyFuzzyHitIsFirst | src/populate_trec_complete.py:633-640 | a fallback hit is the first entry, in insertion order, whose lower-cased word set shares at least two words with the name's; no None entry comes before it |
| Mapping.PyFuzzyErrorAtNone | src/populate_trec_complete.py:633 | the fallback raises exactly when it reaches a None entry with no earlier hit |
| Mapping.PyFuzzyMissIffClear | src/populate_trec_complete.py:642 | the fallback returns None exactly when no entry is None and no entry shares two words |
| Mapping.FuzzyMatchLineItem | src/populate_trec_complete.py:628-642 | the loop over the table computes the fallback's outcome: the first hit, the unpacking error, or None |
| Mapping.ScanForSharedWords | src/populate_trec_complete.py:633-642 | the same loop over any table computes the fallback's outcome |
| Mapping.PyFuzzyNoneEntry | src/populate_trec_complete.py:633 | a table with a None entry never lets the fallback return None |
| Mapping.PyFuzzyNeverMisses | src/populate_trec_complete.py:160 | because "Report Context" maps to None, `fuzzy_match_line_item` never reaches `return None` |
| Mapping.PyFuzzy | src/populate_trec_complete.py:628-642 | a hit is the target of an entry that shares two words with the name; a miss is possible only when no entry is None |
| Mapping.PyResolve | src/populate_trec_complete.py:561-574 | a name is mapped exactly when its last entry holds a triple, to that triple; the fuzzy branch never runs, so resolution never raises |
| Mapping.JsFuzzyNeverMatches | app.js:477-485 | `fuzzyMatchLineItem` returns null for every name: both word sets are singletons |
| Mapping.JsFuzzy | app.js:472-489 | an answer is always the target of some entry of the table |
| Mapping.FuzzyMatchLineItemJs | app.js:472-489 | the browser loop computes the fallback's (null) answer |
| Mapping.JsResolve | app.js:441-447 | a name is mapped exactly when the browser table has an entry for it, to that entry's target; it throws exactly when the table lacks it and every object inherits it |
| Mapping.JsResolveIn | app.js:441-449 | the same holds for any mapping object: only its own keys map, to their entry, and only inherited names it lacks throw |
| Mapping.PySkipsInformational | src/populate_trec_complete.py:160-161 | "Report Context" and "General Information" are stored as None and skipped |
| Mapping.SiteContextMapped | src/populate_trec_complete.py:162 | "Site and Property Context" maps to item B of the first section in both tables |
| Mapping.JsDropsReportContext | app.js:4-50 | the browser table has no "Report Context" entry, so the name is dropped only because it is absent |
| Mapping.PyFirstSectionNamesMapped | src/populate_trec_complete.py:87-89 | "Decks and Stairways" maps to item K and "Exterior Cladding and Trim" to item E of the first section |
| Mapping.JsFirstSectionNamesMapped | app.js:5-7 | the browser table maps the same two names to the same items |
| Mapping.InheritedNameDiverges | app.js:441-449 | "constructor" is skipped by Python but resolves to a throw in the browser |
| Populator.ItemKey | src/populate_trec_complete.py:577 | `f"{section_idx}_{item_code}"` reads back: the digits before the first `_` give the section index, and what follows it is the code |
| Populator.ItemKeyInjective | src/populate_trec_complete.py:577 | two targets with the same key have the same section and the same code |
| Populator.PyKeywords | src/populate_trec_complete.py:456 | the title gives no keyword exactly when it is blank, and never an empty keyword |
| Populator.HasStatus | src/populate_trec_complete.py:608-609 | a line item whose status is truthy is never filtered out as empty |
| Populator.FirstClaim | src/populate_trec_complete.py:602-626 | the first claimant checks the box its truthy status names and replaces the inline comments with their non-empty rendering; nothing else changes and no box is unchecked |
| Populator.LaterClaim | src/populate_trec_complete.py:588-601 | a later claimant changes only the stored item, keeps the form's structure, unchecks nothing, and changes nothing when its comments render to nothing |
| Populator.LaterClaimAppends | src/populate_trec_complete.py:588-601 | a later claimant touches no checkbox, keeps the old content as a prefix, and appends separator and new rendering when that rendering is non-empty |
| Populator.Claim | src/populate_trec_complete.py:588-603 | an unclaimed key is bound to the located item and first-claimed; a claimed key keeps its item and gets a later claim; no claim is forgotten |
| Populator.Reconcile | src/populate_trec_complete.py:576-626 | one line-item step keeps the form's structure, unchecks nothing, forgets no claim, and changes nothing for an unmapped name |
| Populator.PySkipsUnmapped | src/populate_trec_complete.py:561-566 | a name whose last entry is None, or that has no entry, changes nothing |
| Populator.PyFirstClaimant | src/populate_trec_complete.py:602-621 | the first claimant of a key records the located item, checks its status box and replaces its comments |
| Populator.PyLaterClaimant | src/populate_trec_complete.py:588-601 | a later claimant keeps the claims and every checkbox, keeps the existing comments as a prefix, and changes nothing when its comments render to nothing |
| Populator.PyItems | src/populate_trec_complete.py:557-626 | the inner loop moves no element of the form, and every key claimed before it keeps its item |
| Populator.PySection | src/populate_trec_complete.py:544-557 | one section, skipped when the filter leaves nothing, moves no element and keeps every earlier claim |
| Populator.PySections | src/populate_trec_complete.py:543-626 | the outer loop moves no element, and a key once claimed keeps its item to the end |
| Populator.PyItemsKeep | src/populate_trec_complete.py:557-626 | the inner loop keeps the form's structure and every checked box, and every claim points at an item |
| Populator.PySectionsKeep | src/populate_trec_complete.py:543-626 | the outer loop keeps the form's structure and every checked box, and every claim points at an item |
| Populator.PyPopulate | src/populate_trec_complete.py:537-626 | populating moves, adds and removes no element, so every lookup answers as on the template; it never unchecks a box |
| Claims.ReconcileWith | src/populate_trec_complete.py:576-626 | one line item under any keying of `processed_items` keeps the form's structure |
| Claims.ItemsWith | src/populate_trec_complete.py:557-626 | the loop under any keying keeps the form's structure |
| Claims.PyItemsIsCodeKeyed | src/populate_trec_complete.py:577 | keyed by `f"{section_idx}_{item_code}"`, the general loop is the source's inner loop |
| Claims.PySectionsFlatten | src/populate_trec_complete.py:543-557 | the two nested loops are one loop over the non-empty line items of the whole report, in order |
| Claims.ItemsAccumulate | src/populate_trec_complete.py:588-626 | when keys and located items match one to one, every item's comments are its first claimant's rendering, then a separator and the rendering of each later claimant with one, in report order; every claimed key came from a line item and records where it landed |
| Claims.PyPopulateAccumulates | src/populate_trec_complete.py:537-626 | for the source's key, the same holds for `populate_all_sections` whenever no two keys land on one item |
| Claims.OverwriteUnderTwoKeys | src/populate_trec_complete.py:602-621 | two line items landing on one item under different keys leave only the second's rendering, where accumulation would keep both |
| Claims.PyOverwriteExample | src/populate_trec_complete.py:577-621 | on a form whose first section has one item, a "Decks and Stairways" item then an "Exterior Cladding and Trim" item leave only the second's comments; keyed by the item found, both are kept |
| Claims.PositionKeySeparates | src/populate_trec_complete.py:577 | a key that names the located item matches keys to items one to one |
| Claims.PyPopulateByItem | src/populate_trec_complete.py:537-626 | the loop keyed by the located item keeps the form's structure |
| Claims.PyPopulateByItemAccumulates | src/populate_trec_complete.py:588-626 | keyed by the located item, every item's comments accumulate all of its claimants, with no condition on the report |
| Populator.EmptySectionChangesNothing | src/populate_trec_complete.py:550-552 | a section whose items are all empty changes nothing |
| Populator.EmptyItemChangesNothing | src/populate_trec_complete.py:548 | an empty line item inserted anywhere in a section does not change the outcome |
| Populator.Finish | src/populate_trec_complete.py:729-733 | after removing empty sections and writing page numbers, every title left heads a section with data, no page is lost, and every page-count input shows the page count |
| Populator.RunOutcome | src/populate_trec_complete.py:707-733 | after `main`, every remaining title heads a section with data, the template's pages are all there, and every page-count input shows their number |
| Populator.SetIfPresent | src/populate_trec_complete.py:483-487 | an input's value is set only when the input exists, and no other input changes |
| Populator.BasicHeader | src/populate_trec_complete.py:483-517 | when the inputs exist, `client` gets `clientInfo.name`, `address` gets `address.fullAddress`, `inspector` gets `inspector.name` and `trec1` gets `inspector.id` (each "" when missing). The sponsor inputs and the inputs outside the header are untouched |
| Populator.SponsorName | src/populate_trec_complete.py:521-524 | the sponsor is `companyName` or else `name`, and it is truthy exactly when one of the two is |
| Populator.SponsorUpdate | src/populate_trec_complete.py:519-535 | with a truthy account, `sponsor` gets `companyName` (else `name`) and `trec2` gets `id`, each only when that value is truthy; otherwise the input keeps its value; with no account nothing changes |
| Populator.HeaderUpdate | src/populate_trec_complete.py:472-535 | `populate_header_fields` without the date gives all six header inputs their exact values as above, and no other input changes |
| Populator.HeaderUpdateIdempotent | src/populate_trec_complete.py:472-535 | filling the header twice from the same report is the same as filling it once |
| Populator.TrecPopulator.constructor | src/populate_trec_complete.py:168-177 | the populator holds the parsed template and the loaded report |
| Populator.TrecPopulator.CheckStatusCheckbox | src/populate_trec_complete.py:370-376 | the form becomes the status-checked form; header inputs are untouched |
| Populator.TrecPopulator.FindTrecItem | src/populate_trec_complete.py:432-464 | answers the lookup specification with the title's lower-cased `split()` words as keywords |
| Populator.TrecPopulator.PopulateAllSections | src/populate_trec_complete.py:537-626 | the nested loops with `processed_items` leave the form the fold over the report describes |
| Populator.TrecPopulator.PopulateSectionItems | src/populate_trec_complete.py:557-626 | the inner loop over one section's remaining items follows the fold |
| Populator.TrecPopulator.PopulateLineItem | src/populate_trec_complete.py:558-626 | one iteration: resolve, locate, then claim or append, as the step specifies |
| Populator.TrecPopulator.ClaimItem | src/populate_trec_complete.py:602-626 | the first-claim branch leaves the first-claimed form |
| Populator.TrecPopulator.CheckClaimStatus | src/populate_trec_complete.py:606-610 | the status box is checked only for a truthy status and an item with `.checks` |
| Populator.TrecPopulator.ReplaceComments | src/populate_trec_complete.py:613-621 | the comments are replaced only by a non-empty rendering of a non-empty list |
| Populator.TrecPopulator.AppendFinding | src/populate_trec_complete.py:588-601 | the append branch leaves the later-claimed form |
| Populator.TrecPopulator.RemoveEmptySections | src/populate_trec_complete.py:644-687 | the form becomes the one with empty sections removed: sections with data unchanged, the titles and items of the others gone (see Form.PopulatedSectionKept and Form.EmptySectionDropped) |
| Populator.TrecPopulator.UpdatePageNumbers | src/populate_trec_complete.py:689-698 | returns the number of pages and writes its decimal string into every page-count input |
| Populator.TrecPopulator.PopulateHeaderFields | src/populate_trec_complete.py:472-535 | the inputs become the header update of the report; the form is untouched |
| Populator.TrecPopulator.SetBasicInputs | src/populate_trec_complete.py:483-517 | the client, address, inspector and licence writes |
| Populator.TrecPopulator.SetInput | src/populate_trec_complete.py:484-486 | writes an input's value only when the input exists |
| Populator.TrecPopulator.SetSponsorInputs | src/populate_trec_complete.py:519-535 | the sponsor writes, guarded by a truthy account and value, with `companyName` preferred to `name` |
| Populator.TrecPopulator.Run | src/populate_trec_complete.py:718-733 | `main`'s sequence: header, sections, removal of empty sections, page numbers |
| Browser.JsKeywords | app.js:516 | at least one keyword, and the first keyword is empty exactly when the title is empty or starts with whitespace |
| Browser.JsFirstClaim | app.js:530-555 | a truthy status checks its box; a non-empty list of comments replaces the inline comments with their rendering, even when that is empty; nothing else changes |
| Browser.JsAppend | app.js:557-569 | a non-empty list of comments is appended after the separator, even when it renders to nothing; no checkbox changes |
| Browser.JsClaim | app.js:455-461 | an unclaimed key is recorded and first-claimed; a claimed key appends to the item just located |
| Browser.JsStep | app.js:437-461 | empty items and unmapped names change nothing; only a mapped inherited name throws; the structure and checked boxes are kept |
| Browser.JsItems | app.js:437-462 | the inner loop forgets no key and never undoes a throw, and throws only when some line item's name resolves to a throw |
| Browser.JsSections | app.js:434-463 | the outer loop forgets no key and never undoes a throw |
| Browser.JsItemsKeep | app.js:437-462 | the inner loop keeps the document's structure and checked boxes, and does nothing after a throw |
| Browser.JsSectionsKeep | app.js:434-463 | the outer loop keeps the document's structure and checked boxes, and does nothing after a throw |
| Browser.JsItemsThrown | app.js:449 | after a throw, the inner loop does nothing |
| Browser.JsItemsAppend | app.js:437 | the inner loop over `a + b` is the loop over `a`, then over `b` |
| Browser.JsSectionsAppend | app.js:434 | the outer loop over `a + b` is the loop over `a`, then over `b` |
| Browser.JsItemsThrownSuffix | app.js:449 | once the inner loop throws, the rest of it does nothing |
| Browser.JsSectionsAfterThrow | app.js:449 | once the outer loop throws, the rest of it does nothing |
| Browser.JsThrowEndsLoops | app.js:449 | a throw at some line item decides the whole population's outcome |
| Browser.JsPopulate | app.js:427-464 | a population that does not throw moves, adds and removes no element and unchecks no box |
| Browser.JsOverwriteExampleWith | app.js:448-460 | under any resolver giving the two names items K and E of section 0, the browser also leaves only the second line item's comments in the form's one item |
| Browser.JsOverwriteExample | app.js:427-555 | the report of Claims.PyOverwriteExample through the browser table: `populateSections` does not throw, and the item holds only the second line item's comments |
| Browser.JsEmptyItemChangesNothing | app.js:438 | an empty line item inserted anywhere does not change the outcome |
| Browser.InheritedNameThrows | app.js:441-449 | a report with a "constructor" line item makes the browser throw, while Python leaves the form unchanged |
| Browser.FirstClaimsAgree | app.js:542-546 | with no comments, or with comments that render to something, both first claims give the same form |
| Browser.FirstClaimsDiverge | app.js:544-546 | comments that render to nothing empty the browser's box, while Python keeps the template's content |
| Browser.AppendsAgree | app.js:557-569 | where the new comments render to something, both populators append the same thing |
| Browser.BlankCommentDiverges | app.js:562-568 | a blank comment makes the browser append a bare separator, while Python appends nothing |
| Browser.KeywordsAgree | app.js:516 | on a title without surrounding whitespace, both populators search with the same keywords |
| Browser.LeadingSpaceMatchesAnyTitle | app.js:516-521 | a title with leading whitespace gives the browser an empty keyword that every item title contains |
| Browser.TrecDocument.constructor | app.js:301-302 | the document is the parsed template |
| Browser.TrecDocument.CheckStatusCheckbox | app.js:571-579 | the document becomes the status-checked document |
| Browser.TrecDocument.FindTrecItem | app.js:491-528 | answers the lookup specification with the lower-cased `split(/\s+/)` pieces as keywords and an unstripped title |
| Browser.TrecDocument.PopulateTrecItem | app.js:530-555 | the document becomes the browser's first-claimed document |
| Browser.TrecDocument.AppendAsAdditionalFinding | app.js:557-569 | the document becomes the browser's appended document |
| Browser.TrecDocument.PopulateSections | app.js:427-464 | the nested loops with `processedItems` leave the document the fold describes, and report a throw exactly when the fold throws |
| Browser.TrecDocument.PopulateLineItem | app.js:437-461 | one iteration: skip, throw, or locate then claim or append, as the step specifies |
| Browser.TrecDocument.UpdatePageNumbers | app.js:702-710 | every page-count input shows the number of pages; nothing else changes |

## Left out

- File loading, JSON decoding, HTML parsing, `prettify` and `save` output,
  printing and console logging are not modelled. The report arrives already
  decoded as `Section` and `LineItem` values, and the template as a sequence
  of nodes.
- The date branch of `transform_value` and the date input of
  `populate_header_fields` are not modelled. They depend on `datetime` and a
  floating-point millisecond timestamp.
- `add_formatting_css`, `addFormattingCSS` and every inline `style` write are
  not modelled. They only change appearance.
- HTML escaping (`html.escape`, `escapeHtml`) is not modelled. Fragments keep
  the raw text they display, so the difference in quote escaping between the
  two is not captured.
- HTML output is a fragment list, not a string. The `'\n'` join of the parts
  and the reparsing by BeautifulSoup or `innerHTML` are not modelled.
- `Other` stands for any element that is neither a section title, an item, a
  page-count input nor a page end. Tag names and CSS classes are not
  modelled beyond those kinds.
- The page-end boundary assumes every `.page` ends a run of siblings. A
  section then runs from its title to the next title or to the end of its
  page, which is where `find_next_sibling` / `nextElementSibling` return
  nothing.
- An item has at most one `.checks` container and one `.comments` element.
  A second `.comments` outside `.comments-inline` is not modelled.
- Letter case is ASCII only: no Unicode case mapping.
- Text.IsSpace: whitespace is the six ASCII characters both languages accept
  (space, tab, line feed, vertical tab, form feed, carriage return). Python's
  `strip` and `split` also treat `\x1c`-`\x1f`, `\x85` and Unicode spaces
  as whitespace. JavaScript's `trim` and `\s` treat the no-break space and
  the Unicode spaces as whitespace, but not `\x1c`-`\x1f` or `\x85`. Neither
  the extra characters nor that difference is modelled.
- `inspectionStatus` is modelled as a string or absent. A non-string status
  (where Python's `.upper()` would raise) is not modelled.
- JsonValues.Get: a `.get` on a value that is not a dict reads as the
  default, where Python would raise `AttributeError`.
- JsonValues.TransformValue: lists and dicts are excluded, because their
  `str()` rendering is not modelled.
- JsonValues.JNumber: JSON numbers are integers. Floats (`1.5`, and the
  `str()` forms Python gives them) are not modelled.
- Inspection.Comment: `location`, `order`, `photos` and `videos` always hold
  a value. A JSON null in them makes Python raise: `.strip()` at line 381,
  comparing None with a number at line 399, iterating None at lines 410 and
  420. The exception reaches the catch-all of `main` (lines 744-747), and
  nothing is saved. `app.js` falls back to `''`, `0` and `[]` and carries
  on. That error path is not modelled.
- Inspection.LineItem: `comments` always holds a list. A JSON null there
  makes `len(None)` raise at line 469, with the same outcome as above.
- Fragments.FormatCommentText: a null `location` raises at line 381 in
  Python; the model has no null location, as above.
- Claims.PyPopulateAccumulates: requires that equal keys land on the same
  item. In both tables every `(section, code)` pair comes with one title,
  so this half always holds, but that fact about the whole table is not
  proved.
- Populator.TrecPopulator.PopulateAllSections: the class and `Run` follow
  the source's keying. The corrected keying appears only in `Claims`.
- Browser.JsOverwriteExample: the browser shows the same overwrite, but no
  corrected browser loop is modelled. The Python correction carries over
  unchanged.
- Browser.TrecDocument.CheckStatusCheckbox: `checked` and `value` are set as
  DOM properties, not attributes. The model does not tell the two apart.
  `app.js` serialises the page with `outerHTML` (line 319), which writes
  attributes only. So the browser's saved page shows no checked box and no
  page count. Browser.FirstClaimsAgree and the page-count lemmas compare
  states that serialise differently.
- Browser.TrecDocument.PopulateSections: a throw is reported as a flag. The
  model does not capture the page being left half-populated, beyond saying
  that `JsPopulate` has no result.
- Form.PruneSiblings: `remove_empty_sections` is modelled as one pass over
  the siblings. The code walks each title separately, but each walk reads
  only its own section, so the results are the same.
- `populateHeader` and `setFieldValue` (app.js:346-416): the browser's header
  fill is not modelled. It runs in the report generator between parsing and
  `populateSections` (app.js:307). Only the Python header is modelled, by
  `Populator.HeaderUpdate`. The browser's fill differs from it in three ways:
  - The address falls back to `address.street` when `fullAddress` is falsy
    (app.js:384). Python reads `fullAddress` only.
  - `#sponsor` and `#trec2` are always written, with `''` when the value is
    missing (app.js:399-405). Python writes them only when the account and
    the value are truthy (src/populate_trec_complete.py:519-535).
  - `setFieldValue` sets the `value` attribute (app.js:413). So, unlike the
    checked status boxes, the header values survive the `outerHTML`
    serialisation.
- The file and drag-and-drop handlers, the progress UI, PDF download and
  `formatFileSize` in `app.js` are not modelled. They are user-interface
  code around the pipeline.
- `TREC_MAPPING` is not modelled, because nothing refers to it.
- `src/server.py` and `src/test_trec_processor.py` are not part of this model.

## Findings

| source | as written | input that shows it | evidently intended | confidence | as-written member | corrected member |
|---|---|---|---|---|---|---|
| src/populate_trec_complete.py:577-621 | `processed_items` is keyed by `f"{section_idx}_{item_code}"`. A line item whose key is new but whose lookup lands on an item already claimed under another key is a first claim. `comments_container.clear()` then drops the earlier comments. `app.js` does the same at lines 448-460 and 546 | a form whose first section holds a single item; one report section with a "Decks and Stairways" line item, then an "Exterior Cladding and Trim" line item, each with a comment that renders to something | the second line item's comments follow the first's behind "Additional Finding:", so content already written is never lost | not executed | Claims.PyOverwriteExample | Claims.PyPopulateByItemAccumulates |
