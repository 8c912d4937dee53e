/**
 * The browser populator of `app.js`: `populateSections` as a fold over the
 * report, the class `TrecDocument` whose methods change the parsed document
 * in place, and how its answers differ from the Python populator's.
 */
module Browser {
  import opened Wrappers
  import opened Text
  import opened Inspection
  import opened Fragments
  import opened Form
  import opened Mapping
  import opened Populator

  /** `itemTitle.toLowerCase().split(/\s+/)`: always at least one keyword,
      and an empty first keyword, which every title contains, exactly when
      the title is empty or starts with whitespace. */
  function JsKeywords(title: string): (ks: seq<string>)
    ensures ks != []
    ensures ks[0] == [] <==> title == [] || IsSpace(title[0])
  {
    assert title != [] ==> IsSpace(Lower(title)[0]) == IsSpace(title[0]) by {
      if title != [] {
        LowerKeepsSpaces(title[0]);
      }
    }
    RegexSplit(Lower(title))
  }

  // ---------------------------------------------------------------------
  // One line item

  /** `populateTrecItem`: a truthy status checks its box; a non-empty list of
      comments replaces the inline comments with their rendering, even when
      that rendering is empty. */
  function JsFirstClaim(nodes: seq<Node>, j: nat, li: LineItem): (r: seq<Node>)
    ensures |r| == |nodes| && Landmarks(r) == Landmarks(nodes) && ChecksKept(nodes, r)
    ensures forall i :: 0 <= i < |nodes| && i != j ==> r[i] == nodes[i]
    ensures HasChecks(nodes, j) ==>
      r[j].checks == if HasStatus(li) then Some(WithStatusChecked(nodes[j].checks.value, li.inspectionStatus.value))
                     else nodes[j].checks
    ensures HasInlineBox(nodes, j) ==>
      HasInlineBox(r, j) && ContentAt(r, j) == if li.comments != [] then Render(li.comments) else ContentAt(nodes, j)
    ensures !HasChecks(nodes, j) && !HasInlineBox(nodes, j) ==> r == nodes
  {
    var checked := if HasStatus(li) then CheckStatusAt(nodes, j, li.inspectionStatus.value) else nodes;
    if li.comments != [] then SetContentAt(checked, j, Render(li.comments)) else checked
  }

  /** `appendAsAdditionalFinding`: a non-empty list of comments is appended
      behind the separator, even when its rendering is empty. */
  function JsAppend(nodes: seq<Node>, j: nat, li: LineItem): (r: seq<Node>)
    ensures |r| == |nodes| && Landmarks(r) == Landmarks(nodes) && ChecksKept(nodes, r)
    ensures forall i :: 0 <= i < |nodes| && i != j ==> r[i] == nodes[i]
    ensures forall i :: 0 <= i < |nodes| && nodes[i].Item? ==> r[i].checks == nodes[i].checks
    ensures HasInlineBox(nodes, j) && li.comments != [] ==>
      HasInlineBox(r, j) && ContentAt(r, j) == ContentAt(nodes, j) + [AdditionalFinding] + Render(li.comments)
    ensures li.comments == [] ==> r == nodes
  {
    if HasInlineBox(nodes, j) && li.comments != [] then
      SetContentAt(nodes, j, ContentAt(nodes, j) + [AdditionalFinding] + Render(li.comments))
    else nodes
  }

  /** The document, the keys of `processedItems`, and whether an exception
      has been thrown (the caller then discards the document). */
  datatype JsState = JsState(nodes: seq<Node>, claimed: set<string>, thrown: bool)

  /** Claim the item at `j` for `key`, or append to it when `key` is taken. */
  function JsClaim(st: JsState, j: nat, key: string, li: LineItem): (q: JsState)
    ensures Landmarks(q.nodes) == Landmarks(st.nodes) && ChecksKept(st.nodes, q.nodes)
    ensures q.claimed == st.claimed + {key} && q.thrown == st.thrown
    ensures key in st.claimed ==> q.nodes == JsAppend(st.nodes, j, li)
    ensures key !in st.claimed ==> q.nodes == JsFirstClaim(st.nodes, j, li)
  {
    if key in st.claimed then st.(nodes := JsAppend(st.nodes, j, li))
    else JsState(JsFirstClaim(st.nodes, j, li), st.claimed + {key}, st.thrown)
  }

  /** The body of the inner loop of `populateSections`: an empty line item is
      skipped; a name that resolves to a property that is not a triple
      throws; a mapped item is located and claimed or appended to. */
  function JsStep(st: JsState, li: LineItem, mapping: Resolution): (q: JsState)
    ensures Landmarks(q.nodes) == Landmarks(st.nodes) && ChecksKept(st.nodes, q.nodes)
    ensures st.claimed <= q.claimed
    ensures q.thrown <==> st.thrown || (!IsEmptyItem(li) && mapping.Crash?)
    ensures st.thrown || IsEmptyItem(li) || mapping.Unmapped? ==> q.nodes == st.nodes
  {
    if st.thrown || IsEmptyItem(li) then st
    else
      match mapping
      case Crash => st.(thrown := true)
      case Unmapped => st
      case Mapped(t) =>
        (match Locate(Landmarks(st.nodes), t.section, t.code, JsKeywords(t.title), false)
         case None => st
         case Some(j) => JsClaim(st, j, ItemKey(t), li))
  }

  /** The inner loop over all line items of a section. Keys are never
      forgotten, a throw is never undone, and only a name that resolves to a
      property that is not a triple throws. */
  function JsItems(st: JsState, items: seq<LineItem>, resolve: Resolver): (q: JsState)
    ensures st.claimed <= q.claimed
    ensures st.thrown ==> q.thrown
    ensures (forall k :: 0 <= k < |items| ==> !resolve(items[k].name).Crash?) ==> q.thrown == st.thrown
    decreases |items|
  {
    if items == [] then st
    else
      var li := items[|items| - 1];
      JsStep(JsItems(st, items[..|items| - 1], resolve), li, resolve(li.name))
  }

  /** The outer loop over the report's sections: keys are never forgotten and
      a throw is never undone. */
  function JsSections(st: JsState, sections: seq<Section>, resolve: Resolver): (q: JsState)
    ensures st.claimed <= q.claimed
    ensures st.thrown ==> q.thrown
    decreases |sections|
  {
    if sections == [] then st
    else JsItems(JsSections(st, sections[..|sections| - 1], resolve), sections[|sections| - 1].lineItems, resolve)
  }

  /** `populateSections` from no claimed key through the browser table: the
      populated document, or None when it throws. A population that does not
      throw moves, adds and removes no element and unchecks no box. */
  function JsPopulate(nodes: seq<Node>, sections: seq<Section>): (r: Option<seq<Node>>)
    ensures r.Some? ==> Landmarks(r.value) == Landmarks(nodes) && ChecksKept(nodes, r.value)
  {
    JsSectionsKeep(JsState(nodes, {}, false), sections, JsResolve);
    var st := JsSections(JsState(nodes, {}, false), sections, JsResolve);
    if st.thrown then None else Some(st.nodes)
  }

  // ---------------------------------------------------------------------
  // Properties of the fold

  lemma {:induction false} JsItemsKeep(st: JsState, items: seq<LineItem>, resolve: Resolver)
    ensures var q := JsItems(st, items, resolve);
      Landmarks(q.nodes) == Landmarks(st.nodes) && ChecksKept(st.nodes, q.nodes) && (st.thrown ==> q == st)
    decreases |items|
  {
    if items != [] {
      var mid := JsItems(st, items[..|items| - 1], resolve);
      JsItemsKeep(st, items[..|items| - 1], resolve);
      ChecksKeptTrans(st.nodes, mid.nodes, JsItems(st, items, resolve).nodes);
    } else {
      assert ChecksKept(st.nodes, st.nodes);
    }
  }

  lemma {:induction false} JsSectionsKeep(st: JsState, sections: seq<Section>, resolve: Resolver)
    ensures var q := JsSections(st, sections, resolve);
      Landmarks(q.nodes) == Landmarks(st.nodes) && ChecksKept(st.nodes, q.nodes) && (st.thrown ==> q == st)
    decreases |sections|
  {
    if sections != [] {
      var mid := JsSections(st, sections[..|sections| - 1], resolve);
      JsSectionsKeep(st, sections[..|sections| - 1], resolve);
      JsItemsKeep(mid, sections[|sections| - 1].lineItems, resolve);
      ChecksKeptTrans(st.nodes, mid.nodes, JsSections(st, sections, resolve).nodes);
    } else {
      assert ChecksKept(st.nodes, st.nodes);
    }
  }

  /** After an exception the inner loop does nothing. */
  lemma {:induction false} JsItemsThrown(st: JsState, items: seq<LineItem>, resolve: Resolver)
    requires st.thrown
    ensures JsItems(st, items, resolve) == st
    decreases |items|
  {
    if items != [] {
      JsItemsThrown(st, items[..|items| - 1], resolve);
    }
  }

  /** Running the inner loop over `a + b` is running it over `a`, then over `b`. */
  lemma {:induction false} JsItemsAppend(st: JsState, a: seq<LineItem>, b: seq<LineItem>, resolve: Resolver)
    ensures JsItems(st, a + b, resolve) == JsItems(JsItems(st, a, resolve), b, resolve)
    decreases |b|
  {
    if b == [] {
      assert a + b == a;
    } else {
      var li := b[|b| - 1];
      assert (a + b)[|a + b| - 1] == li;
      assert (a + b)[..|a + b| - 1] == a + b[..|b| - 1];
      JsItemsAppend(st, a, b[..|b| - 1], resolve);
      assert JsItems(st, a + b, resolve) == JsStep(JsItems(st, a + b[..|b| - 1], resolve), li, resolve(li.name));
    }
  }

  /** Running the outer loop over `a + b` is running it over `a`, then over `b`. */
  lemma {:induction false} JsSectionsAppend(st: JsState, a: seq<Section>, b: seq<Section>, resolve: Resolver)
    ensures JsSections(st, a + b, resolve) == JsSections(JsSections(st, a, resolve), b, resolve)
    decreases |b|
  {
    if b == [] {
      assert a + b == a;
    } else {
      assert (a + b)[..|a + b| - 1] == a + b[..|b| - 1];
      JsSectionsAppend(st, a, b[..|b| - 1], resolve);
    }
  }

  /** Once an exception is thrown in the inner loop, the rest of it does nothing. */
  lemma JsItemsThrownSuffix(st: JsState, a: seq<LineItem>, b: seq<LineItem>, resolve: Resolver)
    requires JsItems(st, a, resolve).thrown
    ensures JsItems(st, a + b, resolve) == JsItems(st, a, resolve)
  {
    JsItemsAppend(st, a, b, resolve);
    JsItemsThrown(JsItems(st, a, resolve), b, resolve);
  }

  /** Once an exception is thrown in the outer loop, the rest of it does nothing. */
  lemma JsSectionsAfterThrow(st: JsState, sections: seq<Section>, k: nat, resolve: Resolver)
    requires k <= |sections| && JsSections(st, sections[..k], resolve).thrown
    ensures JsSections(st, sections, resolve) == JsSections(st, sections[..k], resolve)
  {
    assert sections == sections[..k] + sections[k..];
    JsSectionsAppend(st, sections[..k], sections[k..], resolve);
    JsSectionsKeep(JsSections(st, sections[..k], resolve), sections[k..], resolve);
  }

  /** An exception at line item `ii` of section `si` is the outcome of the
      whole population: nothing after it runs. */
  lemma JsThrowEndsLoops(start: JsState, sections: seq<Section>, si: nat, ii: nat, resolve: Resolver)
    requires si < |sections| && ii < |sections[si].lineItems|
    requires JsItems(JsSections(start, sections[..si], resolve), sections[si].lineItems[..ii + 1], resolve).thrown
    ensures JsSections(start, sections, resolve) ==
      JsItems(JsSections(start, sections[..si], resolve), sections[si].lineItems[..ii + 1], resolve)
  {
    var mid := JsSections(start, sections[..si], resolve);
    var items := sections[si].lineItems;
    assert items == items[..ii + 1] + items[ii + 1..];
    JsItemsThrownSuffix(mid, items[..ii + 1], items[ii + 1..], resolve);
    assert sections[..si + 1][..si] == sections[..si];
    JsSectionsAfterThrow(start, sections, si + 1, resolve);
  }

  /** An empty line item may be inserted anywhere in a section without
      changing the outcome. */
  lemma {:induction false} JsEmptyItemChangesNothing(st: JsState, a: seq<LineItem>, li: LineItem, b: seq<LineItem>, resolve: Resolver)
    requires IsEmptyItem(li)
    ensures JsItems(st, a + [li] + b, resolve) == JsItems(st, a + b, resolve)
    decreases |b|
  {
    if b == [] {
      assert (a + [li] + b)[..|a + [li] + b| - 1] == a;
      assert a + b == a;
    } else {
      var b' := b[..|b| - 1];
      assert (a + [li] + b)[..|a + [li] + b| - 1] == a + [li] + b';
      assert (a + b)[..|a + b| - 1] == a + b';
      JsEmptyItemChangesNothing(st, a, li, b', resolve);
    }
  }

  /** A line item named "constructor" with a status makes the browser
      population throw, while Python skips it. */
  lemma InheritedNameThrows(nodes: seq<Node>)
    ensures var li := LineItem("constructor", Some("I"), []);
      JsPopulate(nodes, [Section("Structural Systems", [li])]) == None &&
      PyPopulate(nodes, [Section("Structural Systems", [li])]) == nodes
  {
    var li := LineItem("constructor", Some("I"), []);
    var sections := [Section("Structural Systems", [li])];
    InheritedNameDiverges("constructor");
    assert sections[..0] == [] && [li][..0] == [];
    assert NonEmptyItems([li]) == [li] by {
      assert [li][..0] == [];
    }
  }

  /** One section of two line items is two steps. */
  lemma JsSectionsPair(st: JsState, name: string, first: LineItem, second: LineItem, resolve: Resolver)
    ensures JsSections(st, [Section(name, [first, second])], resolve) ==
      JsStep(JsStep(st, first, resolve(first.name)), second, resolve(second.name))
  {
    var sections := [Section(name, [first, second])];
    assert sections[..0] == [] && [first, second][..1] == [first] && [first][..0] == [];
    assert JsSections(st, sections, resolve) == JsItems(st, [first, second], resolve);
    assert JsItems(st, [first], resolve) == JsStep(st, first, resolve(first.name));
  }

  /** A form with the landmarks of a one-item form is one too. */
  lemma JsOneItemFormKept(a: seq<Node>, b: seq<Node>)
    requires OneItemForm(a) && Landmarks(b) == Landmarks(a)
    ensures OneItemForm(b)
  {
    assert LandmarkOf(b[0]) == Landmarks(b)[0] == Landmarks(a)[0] == TitleMark;
    SameLandmarksSameItems(a, b);
  }

  /** On a form whose first section has one item, a line item with comments
      mapped to section 0 claims item 1 under its `section_code` key. */
  lemma JsStepOnOneItemForm(st: JsState, li: LineItem, t: Target)
    requires OneItemForm(st.nodes) && !st.thrown && li.comments != [] && t.section == 0
    ensures JsStep(st, li, Mapped(t)) == JsClaim(st, 1, ItemKey(t), li)
  {
    OneItemFormLocates(st.nodes, t.code, JsKeywords(t.title), false);
  }

  /** On a one-item form, two line items with comments mapped to section 0
      under different keys both claim its item first, so the second one's
      comments are what the item keeps. */
  lemma JsTwoFirstClaims(nodes: seq<Node>, first: LineItem, second: LineItem, t1: Target, t2: Target)
    requires OneItemForm(nodes) && HasInlineBox(nodes, 1)
    requires first.comments != [] && second.comments != []
    requires t1.section == 0 && t2.section == 0 && ItemKey(t1) != ItemKey(t2)
    ensures var st := JsStep(JsStep(JsState(nodes, {}, false), first, Mapped(t1)), second, Mapped(t2));
      !st.thrown && HasInlineBox(st.nodes, 1) && ContentAt(st.nodes, 1) == Render(second.comments)
  {
    var st0 := JsState(nodes, {}, false);
    JsStepOnOneItemForm(st0, first, t1);
    var st1 := JsClaim(st0, 1, ItemKey(t1), first);
    assert st1 == JsState(JsFirstClaim(nodes, 1, first), {ItemKey(t1)}, false);
    JsOneItemFormKept(nodes, st1.nodes);
    JsStepOnOneItemForm(st1, second, t2);
    assert JsStep(st1, second, Mapped(t2)).nodes == JsFirstClaim(st1.nodes, 1, second);
  }

  /** For any resolver that sends "Decks and Stairways" to item K and
      "Exterior Cladding and Trim" to item E of section 0, `populateSections`
      leaves only the second line item's comments in the only item: the two
      keys differ, so both claim it first. */
  lemma JsOverwriteExampleWith(nodes: seq<Node>, name: string, first: LineItem, second: LineItem, resolve: Resolver)
    requires OneItemForm(nodes) && HasInlineBox(nodes, 1)
    requires first.name == "Decks and Stairways" && second.name == "Exterior Cladding and Trim"
    requires resolve(first.name) == Mapped(FirstSectionTarget(first.name))
    requires resolve(second.name) == Mapped(FirstSectionTarget(second.name))
    requires first.comments != [] && second.comments != []
    ensures var st := JsSections(JsState(nodes, {}, false), [Section(name, [first, second])], resolve);
      !st.thrown && HasInlineBox(st.nodes, 1) && ContentAt(st.nodes, 1) == Render(second.comments)
  {
    JsSectionsPair(JsState(nodes, {}, false), name, first, second, resolve);
    FirstSectionKeysDiffer();
    JsTwoFirstClaims(nodes, first, second, FirstSectionTarget(first.name), FirstSectionTarget(second.name));
  }

  /** The same report through the browser table. */
  lemma JsOverwriteExample(nodes: seq<Node>, name: string, first: LineItem, second: LineItem)
    requires OneItemForm(nodes) && HasInlineBox(nodes, 1)
    requires first.name == "Decks and Stairways" && second.name == "Exterior Cladding and Trim"
    requires first.comments != [] && second.comments != []
    ensures var r := JsPopulate(nodes, [Section(name, [first, second])]);
      r.Some? && HasInlineBox(r.value, 1) && ContentAt(r.value, 1) == Render(second.comments)
  {
    JsFirstSectionNamesMapped(first.name);
    JsFirstSectionNamesMapped(second.name);
    JsOverwriteExampleWith(nodes, name, first, second, JsResolve);
  }

  // ---------------------------------------------------------------------
  // The two populators compared

  /** Where a non-empty list of comments renders to something, and where
      there are no comments, both populators treat a first claimant alike. */
  lemma FirstClaimsAgree(nodes: seq<Node>, j: nat, li: LineItem)
    requires li.comments == [] || Render(li.comments) != []
    ensures JsFirstClaim(nodes, j, li) == FirstClaim(nodes, j, li)
  {
  }

  /** A non-empty list of comments that renders to nothing: the browser
      empties the comments box, Python leaves the template's content. */
  lemma FirstClaimsDiverge(nodes: seq<Node>, j: nat, li: LineItem)
    requires HasInlineBox(nodes, j) && li.comments != [] && Render(li.comments) == []
    ensures ContentAt(JsFirstClaim(nodes, j, li), j) == []
    ensures ContentAt(FirstClaim(nodes, j, li), j) == ContentAt(nodes, j)
  {
  }

  /** Where the comments render to something, appending to the same item
      gives the same result in both populators. */
  lemma AppendsAgree(nodes: seq<Node>, j: nat, li: LineItem)
    requires Render(li.comments) != []
    ensures JsAppend(nodes, j, li) == LaterClaim(nodes, j, li)
  {
    RenderEmptiness(li.comments);
  }

  /** A comment with no location, no text and no media renders to nothing:
      the browser still appends the "Additional Finding" separator, Python
      appends nothing. */
  lemma BlankCommentDiverges(nodes: seq<Node>, j: nat, status: Option<string>)
    requires HasInlineBox(nodes, j)
    ensures var li := LineItem("Roof", status, [Comment("", "", "", "", 0, [], [])]);
      ContentAt(JsAppend(nodes, j, li), j) == ContentAt(nodes, j) + [AdditionalFinding] &&
      LaterClaim(nodes, j, li) == nodes
  {
    var c := Comment("", "", "", "", 0, [], []);
    assert Strip(c.location) == "" by {
      assert c.location == [];
    }
    assert CommentBlock(c) == [];
    RenderEmptiness([c]);
  }

  /** On a title without surrounding whitespace both populators search by
      the same keywords. */
  lemma KeywordsAgree(title: string)
    requires title != [] && !IsSpace(title[0]) && !IsSpace(title[|title| - 1])
    ensures JsKeywords(title) == PyKeywords(title)
  {
    LowerKeepsSpaces(title[0]);
    LowerKeepsSpaces(title[|title| - 1]);
    RegexSplitAgreesWithWords(Lower(title));
    WordsLower(title);
  }

  /** A title that starts with whitespace gives the browser an empty keyword,
      which every item title contains. */
  lemma LeadingSpaceMatchesAnyTitle(title: string, itemTitle: string)
    requires title != [] && IsSpace(title[0])
    ensures JsKeywords(title)[0] == "" && Contains(itemTitle, JsKeywords(title)[0])
  {
    LowerKeepsSpaces(title[0]);
    LeadingSpaceGivesEmptyKeyword(Lower(title), itemTitle);
  }

  // ---------------------------------------------------------------------
  // The class

  /** The parsed document of `generateReport` and the functions of `app.js`
      that change it. */
  class TrecDocument {
    var nodes: seq<Node>

    constructor(template: seq<Node>)
      ensures nodes == template
    {
      nodes := template;
    }

    /** `checkStatusCheckbox`: the box the status names, if there is one. */
    method CheckStatusCheckbox(j: nat, status: string)
      requires HasChecks(nodes, j)
      modifies this
      ensures nodes == CheckStatusAt(old(nodes), j, status)
    {
      var checkboxes := nodes[j].checks.value;
      var idx := StatusIndex(status);
      if idx >= 0 && idx < |checkboxes| {
        nodes := nodes[j := nodes[j].(checks := Some(checkboxes[idx := true]))];
      }
    }

    /** `findTrecItem`. */
    method FindTrecItem(sectionIndex: nat, itemCode: string, itemTitle: string) returns (r: Option<nat>)
      ensures r == Locate(Landmarks(nodes), sectionIndex, itemCode, JsKeywords(itemTitle), false)
    {
      r := FindItem(Landmarks(nodes), sectionIndex, itemCode, JsKeywords(itemTitle), false);
    }

    /** `populateTrecItem`. */
    method PopulateTrecItem(j: nat, lineItem: LineItem)
      modifies this
      ensures nodes == JsFirstClaim(old(nodes), j, lineItem)
    {
      if HasChecks(nodes, j) && HasStatus(lineItem) {
        CheckStatusCheckbox(j, lineItem.inspectionStatus.value);
      }
      ghost var checked := nodes;
      assert checked == if HasStatus(lineItem) then CheckStatusAt(old(nodes), j, lineItem.inspectionStatus.value) else old(nodes);
      if HasInlineBox(nodes, j) && lineItem.comments != [] {
        var commentsHtml := FormatAllComments(lineItem.comments);
        nodes := SetContentAt(nodes, j, commentsHtml);
      }
      assert nodes == if lineItem.comments != [] then SetContentAt(checked, j, Render(lineItem.comments)) else checked;
    }

    /** `appendAsAdditionalFinding`. */
    method AppendAsAdditionalFinding(j: nat, lineItem: LineItem)
      modifies this
      ensures nodes == JsAppend(old(nodes), j, lineItem)
    {
      if !HasInlineBox(nodes, j) {
        return;
      }
      if lineItem.comments == [] {
        return;
      }
      var newHtml := FormatAllComments(lineItem.comments);
      nodes := SetContentAt(nodes, j, ContentAt(nodes, j) + [AdditionalFinding] + newHtml);
    }

    /** `populateSections`; `thrown` says the destructuring of a mapping
        threw, which ends the loops where it happens. */
    method PopulateSections(sections: seq<Section>) returns (thrown: bool)
      modifies this
      ensures var st := JsSections(JsState(old(nodes), {}, false), sections, JsResolve);
        nodes == st.nodes && thrown == st.thrown
      ensures thrown <==> JsPopulate(old(nodes), sections).None?
      ensures !thrown ==> JsPopulate(old(nodes), sections) == Some(nodes)
    {
      ghost var start := JsState(nodes, {}, false);
      var processed: set<string> := {};
      thrown := false;
      for si := 0 to |sections|
        invariant JsState(nodes, processed, false) == JsSections(start, sections[..si], JsResolve)
        invariant !thrown
      {
        assert sections[..si + 1][..si] == sections[..si];
        var lineItems := sections[si].lineItems;
        ghost var before := JsState(nodes, processed, false);
        for ii := 0 to |lineItems|
          invariant JsState(nodes, processed, false) == JsItems(before, lineItems[..ii], JsResolve)
          invariant !thrown
        {
          assert lineItems[..ii + 1][..ii] == lineItems[..ii];
          var lineItem := lineItems[ii];
          var mapping := JsResolve(lineItem.name);
          processed, thrown := PopulateLineItem(processed, lineItem, mapping);
          if thrown {
            JsThrowEndsLoops(start, sections, si, ii, JsResolve);
            return;
          }
        }
        assert lineItems[..|lineItems|] == lineItems;
      }
      assert sections[..|sections|] == sections;
    }

    /** One iteration of the inner loop of `populateSections`, once the line
        item's name has resolved to `mapping`. */
    method PopulateLineItem(processed: set<string>, lineItem: LineItem, mapping: Resolution)
      returns (claimed: set<string>, thrown: bool)
      modifies this
      ensures JsState(nodes, claimed, thrown) == JsStep(JsState(old(nodes), processed, false), lineItem, mapping)
    {
      claimed, thrown := processed, false;
      if IsEmptyItem(lineItem) {
        return;
      }
      if mapping.Crash? {
        thrown := true;
        return;
      }
      if mapping.Unmapped? {
        return;
      }
      var t := mapping.target;
      var itemKey := ItemKey(t);
      var trecItem := FindTrecItem(t.section, t.code, t.title);
      if trecItem.None? {
        return;
      }
      if itemKey in processed {
        AppendAsAdditionalFinding(trecItem.value, lineItem);
      } else {
        claimed := processed + {itemKey};
        PopulateTrecItem(trecItem.value, lineItem);
      }
    }

    /** `updatePageNumbers`: every page-count input shows the number of pages. */
    method UpdatePageNumbers()
      modifies this
      ensures nodes == WithPageCount(old(nodes), NatToString(CountPages(old(nodes))))
    {
      var totalPages := CountPages(nodes);
      var value := NatToString(totalPages);
      for i := 0 to |nodes|
        invariant |nodes| == |old(nodes)|
        invariant forall k :: 0 <= k < i ==> nodes[k] == WithPageCount(old(nodes), value)[k]
        invariant forall k :: i <= k < |nodes| ==> nodes[k] == old(nodes)[k]
      {
        if nodes[i].PageCountInput? {
          nodes := nodes[i := PageCountInput(value)];
        }
      }
    }
  }
}
