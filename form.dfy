/**
 * The TREC template as the populators see it: its elements in document
 * order, flattened to the ones that matter. A section title and the items
 * after it are siblings; the siblings of one page end with `PageEnd`, so a
 * section runs from its title to the next title or the end of its page.
 */
module Form {
  import opened Wrappers
  import opened Text
  import opened Fragments

  /** The `.comments` element of an item: whether it sits inside a
      `.comments-inline` block, whether it is `contenteditable="true"`, and
      what it holds. */
  datatype CommentsBox = CommentsBox(inline: bool, editable: bool, content: seq<Fragment>)

  datatype Node =
    | SectionTitle(heading: string)               // div.section-title
    | Item(
        code: Option<string>,                     // text of `.item-title .code`
        title: Option<string>,                    // text of `.item-title` (it includes the code)
        checks: Option<seq<bool>>,                // the checkboxes of `.checks`, true where `checked`
        comments: Option<CommentsBox>)            // div.item
    | PageCountInput(value: string)               // `.pagecount-center input[type="text"]`
    | Other                                       // any other element
    | PageEnd                                     // the end of a `.page` and of its siblings

  predicate IsBoundary(n: Node) {
    n.SectionTitle? || n.PageEnd?
  }

  // ---------------------------------------------------------------------
  // Finding an item: what the lookup reads of each element

  datatype Landmark = TitleMark | ItemMark(code: Option<string>, title: Option<string>) | PlainMark | EndMark

  function LandmarkOf(n: Node): Landmark {
    match n
    case SectionTitle(_) => TitleMark
    case Item(code, title, _, _) => ItemMark(code, title)
    case PageEnd => EndMark
    case _ => PlainMark
  }

  /** The part of the form that item lookup depends on; populating never changes it. */
  function Landmarks(nodes: seq<Node>): (ls: seq<Landmark>)
    ensures |ls| == |nodes|
    ensures forall i :: 0 <= i < |nodes| ==> ls[i] == LandmarkOf(nodes[i])
  {
    seq(|nodes|, i requires 0 <= i < |nodes| => LandmarkOf(nodes[i]))
  }

  /** Forms with the same landmarks have their items in the same places. */
  lemma SameLandmarksSameItems(a: seq<Node>, b: seq<Node>)
    requires Landmarks(a) == Landmarks(b)
    ensures |a| == |b| && forall i :: 0 <= i < |a| ==> (a[i].Item? <==> b[i].Item?)
  {
    forall i | 0 <= i < |a| ensures a[i].Item? <==> b[i].Item? {
      assert LandmarkOf(a[i]) == Landmarks(a)[i] == Landmarks(b)[i] == LandmarkOf(b[i]);
    }
  }

  /** A position marked as an item holds an item. */
  lemma ItemMarkIsItem(nodes: seq<Node>, j: nat)
    requires j < |Landmarks(nodes)| && Landmarks(nodes)[j].ItemMark?
    ensures j < |nodes| && nodes[j].Item?
  {
    assert LandmarkOf(nodes[j]).ItemMark?;
  }

  predicate MarkIsBoundary(l: Landmark) {
    l.TitleMark? || l.EndMark?
  }

  /** The positions of the section titles, in document order. */
  function TitlePositions(ls: seq<Landmark>): (ts: seq<nat>)
    ensures forall k :: 0 <= k < |ts| ==> ts[k] < |ls| && ls[ts[k]].TitleMark?
    ensures forall i :: 0 <= i < |ls| && ls[i].TitleMark? ==> i in ts
    ensures forall k, m :: 0 <= k < m < |ts| ==> ts[k] < ts[m]
  {
    if ls == [] then []
    else TitlePositions(ls[..|ls| - 1]) + (if ls[|ls| - 1].TitleMark? then [|ls| - 1] else [])
  }

  /** The first title or page end at or after `j`, or `|ls|`. */
  function BoundaryFrom(ls: seq<Landmark>, j: nat): (e: nat)
    requires j <= |ls|
    ensures j <= e <= |ls|
    ensures forall m :: j <= m < e ==> !MarkIsBoundary(ls[m])
    ensures e < |ls| ==> MarkIsBoundary(ls[e])
    decreases |ls| - j
  {
    if j == |ls| || MarkIsBoundary(ls[j]) then j else BoundaryFrom(ls, j + 1)
  }

  /** The positions of the items in `[lo, hi)`, in document order. */
  function ItemsBetween(ls: seq<Landmark>, lo: nat, hi: nat): (items: seq<nat>)
    requires lo <= hi <= |ls|
    ensures forall k :: 0 <= k < |items| ==> lo <= items[k] < hi && ls[items[k]].ItemMark?
    ensures forall j :: lo <= j < hi && ls[j].ItemMark? ==> j in items
    ensures forall k, m :: 0 <= k < m < |items| ==> items[k] < items[m]
    decreases hi
  {
    if hi == lo then []
    else ItemsBetween(ls, lo, hi - 1) + (if ls[hi - 1].ItemMark? then [hi - 1] else [])
  }

  /** The items of the section whose title is at `t`. */
  function SectionItems(ls: seq<Landmark>, t: nat): seq<nat>
    requires t < |ls|
  {
    ItemsBetween(ls, t + 1, BoundaryFrom(ls, t + 1))
  }

  /** Position `j` holds an item of the `s`-th section. */
  predicate InSection(ls: seq<Landmark>, s: nat, j: int) {
    var ts := TitlePositions(ls);
    s < |ts| && ts[s] < j < BoundaryFrom(ls, ts[s] + 1) && ls[j].ItemMark?
  }

  /** The item's code reads `code.` once stripped. */
  predicate CodeMatches(l: Landmark, code: string) {
    l.ItemMark? && l.code.Some? && Strip(l.code.value) == code + "."
  }

  /** The item title with a leading `X.` code (and the spaces after it)
      removed, lower-cased; the Python populator strips the title first. */
  function TitleText(title: string, stripFirst: bool): string {
    Lower(StripCodePrefix(if stripFirst then Strip(title) else title))
  }

  /** Some keyword occurs in the item's title text. */
  predicate KeywordMatches(l: Landmark, keywords: seq<string>, stripFirst: bool) {
    l.ItemMark? && l.title.Some? &&
    exists k :: 0 <= k < |keywords| && Contains(TitleText(l.title.value, stripFirst), keywords[k])
  }

  predicate ValidPositions(ls: seq<Landmark>, items: seq<nat>) {
    forall m :: 0 <= m < |items| ==> items[m] < |ls|
  }

  /** The index in `items` of the first item that passes `test`, or `|items|`. */
  function FirstPassing(ls: seq<Landmark>, items: seq<nat>, test: Landmark -> bool): (k: nat)
    requires ValidPositions(ls, items)
    ensures k <= |items|
    ensures k < |items| ==> test(ls[items[k]])
    ensures forall m :: 0 <= m < k ==> !test(ls[items[m]])
  {
    if items == [] || test(ls[items[0]]) then 0 else 1 + FirstPassing(ls, items[1..], test)
  }

  /** The index in `items` of the first item whose code matches, or `|items|`. */
  function FirstCode(ls: seq<Landmark>, items: seq<nat>, code: string): (k: nat)
    requires ValidPositions(ls, items)
    ensures k <= |items|
    ensures k < |items| ==> CodeMatches(ls[items[k]], code)
    ensures forall m :: 0 <= m < k ==> !CodeMatches(ls[items[m]], code)
  {
    FirstPassing(ls, items, l => CodeMatches(l, code))
  }

  /** The index in `items` of the first item whose title holds a keyword, or `|items|`. */
  function FirstKeyword(ls: seq<Landmark>, items: seq<nat>, keywords: seq<string>, stripFirst: bool): (k: nat)
    requires ValidPositions(ls, items)
    ensures k <= |items|
    ensures k < |items| ==> KeywordMatches(ls[items[k]], keywords, stripFirst)
    ensures forall m :: 0 <= m < k ==> !KeywordMatches(ls[items[m]], keywords, stripFirst)
  {
    FirstPassing(ls, items, l => KeywordMatches(l, keywords, stripFirst))
  }

  /** Among the items of a section, the first whose code matches, else the
      first whose title holds a keyword, else the first; None when there is no item. */
  function Choose(ls: seq<Landmark>, items: seq<nat>, code: string, keywords: seq<string>, stripFirst: bool): (r: Option<nat>)
    requires ValidPositions(ls, items)
    ensures r.Some? <==> items != []
    ensures r.Some? ==> r.value in items
  {
    var c := FirstCode(ls, items, code);
    if c < |items| then Some(items[c])
    else
      var w := FirstKeyword(ls, items, keywords, stripFirst);
      if w < |items| then Some(items[w])
      else if items != [] then Some(items[0])
      else None
  }

  /** `find_trec_item` / `findTrecItem`: the choice among the items of the
      `s`-th section; None when there is no such section. */
  function Locate(ls: seq<Landmark>, s: nat, code: string, keywords: seq<string>, stripFirst: bool): (r: Option<nat>)
    ensures r.Some? ==> r.value < |ls| && ls[r.value].ItemMark?
  {
    var ts := TitlePositions(ls);
    if s >= |ts| then None
    else Choose(ls, SectionItems(ls, ts[s]), code, keywords, stripFirst)
  }

  /** The walk of `find_trec_item` / `findTrecItem`: collect the items after
      the section's title up to the next title or the end of the siblings,
      then choose among them. */
  method FindItem(ls: seq<Landmark>, sectionIndex: nat, code: string, keywords: seq<string>, stripFirst: bool)
    returns (r: Option<nat>)
    ensures r == Locate(ls, sectionIndex, code, keywords, stripFirst)
  {
    var sections := TitlePositions(ls);
    if sectionIndex >= |sections| {
      return None;
    }
    var items := SiblingItems(ls, sections[sectionIndex] + 1);
    assert items == SectionItems(ls, sections[sectionIndex]);
    r := ChooseItem(ls, items, code, keywords, stripFirst);
  }

  /** The three tries of `find_trec_item` / `findTrecItem` over the collected items. */
  method ChooseItem(ls: seq<Landmark>, items: seq<nat>, code: string, keywords: seq<string>, stripFirst: bool)
    returns (r: Option<nat>)
    requires ValidPositions(ls, items)
    ensures r == Choose(ls, items, code, keywords, stripFirst)
  {
    var c := ScanByCode(ls, items, code);
    if c < |items| {
      return Some(items[c]);
    }
    var w := ScanByKeyword(ls, items, keywords, stripFirst);
    if w < |items| {
      return Some(items[w]);
    }
    if items != [] {
      return Some(items[0]);
    }
    return None;
  }

  /** The first loop over the items: the first whose code matches (`|items|` if none). */
  method ScanByCode(ls: seq<Landmark>, items: seq<nat>, code: string) returns (k: nat)
    requires ValidPositions(ls, items)
    ensures k == FirstCode(ls, items, code)
  {
    k := 0;
    while k < |items|
      invariant k <= FirstCode(ls, items, code)
    {
      if CodeMatches(ls[items[k]], code) {
        return;
      }
      k := k + 1;
    }
  }

  /** The second loop over the items: the first whose title holds a keyword (`|items|` if none). */
  method ScanByKeyword(ls: seq<Landmark>, items: seq<nat>, keywords: seq<string>, stripFirst: bool) returns (k: nat)
    requires ValidPositions(ls, items)
    ensures k == FirstKeyword(ls, items, keywords, stripFirst)
  {
    k := 0;
    while k < |items|
      invariant k <= FirstKeyword(ls, items, keywords, stripFirst)
    {
      if KeywordMatches(ls[items[k]], keywords, stripFirst) {
        return;
      }
      k := k + 1;
    }
  }

  /** The sibling walk: the items from `start` up to the next title or the end of the siblings. */
  method SiblingItems(ls: seq<Landmark>, start: nat) returns (items: seq<nat>)
    requires start <= |ls|
    ensures items == ItemsBetween(ls, start, BoundaryFrom(ls, start))
  {
    var current := start;
    items := [];
    while current < |ls| && !MarkIsBoundary(ls[current])
      invariant start <= current <= |ls|
      invariant forall m :: start <= m < current ==> !MarkIsBoundary(ls[m])
      invariant items == ItemsBetween(ls, start, current)
      decreases |ls| - current
    {
      if ls[current].ItemMark? {
        items := items + [current];
      }
      current := current + 1;
    }
    assert current == BoundaryFrom(ls, start);
  }

  /** The items the walk collects are exactly the items of the section, in document order. */
  lemma SectionItemsAreInSection(ls: seq<Landmark>, s: nat)
    requires s < |TitlePositions(ls)|
    ensures var items := SectionItems(ls, TitlePositions(ls)[s]);
      ValidPositions(ls, items) &&
      (forall j :: InSection(ls, s, j) <==> j in items)
  {
    var ts := TitlePositions(ls);
    var t := ts[s];
    var items := ItemsBetween(ls, t + 1, BoundaryFrom(ls, t + 1));
    forall j ensures InSection(ls, s, j) <==> j in items {
    }
  }

  /** In a strictly increasing list, a member below the `k`-th element comes before it. */
  lemma EarlierIsListedEarlier(items: seq<nat>, k: nat, j: nat)
    requires forall a, b :: 0 <= a < b < |items| ==> items[a] < items[b]
    requires k < |items| && j in items && j < items[k]
    ensures exists m :: 0 <= m < k && items[m] == j
  {
    var m :| 0 <= m < |items| && items[m] == j;
    assert m < k;
  }

  /** The lookup answers exactly when the section has an item, and answers with an item of that section. */
  lemma LocateAnswersInSection(ls: seq<Landmark>, s: nat, code: string, keywords: seq<string>, stripFirst: bool)
    ensures var r := Locate(ls, s, code, keywords, stripFirst);
      (r.Some? <==> exists j :: InSection(ls, s, j)) &&
      (r.Some? ==> InSection(ls, s, r.value))
  {
    var ts := TitlePositions(ls);
    if s < |ts| {
      SectionItemsAreInSection(ls, s);
      var items := SectionItems(ls, ts[s]);
      var r := Locate(ls, s, code, keywords, stripFirst);
      if items != [] {
        assert r.Some? && r.value in items;
      } else {
        assert r.None?;
      }
    }
  }

  /** A section item whose code matches wins: the lookup answers with the first such item. */
  lemma LocatePrefersCode(ls: seq<Landmark>, s: nat, code: string, keywords: seq<string>, stripFirst: bool, i: nat)
    requires InSection(ls, s, i) && CodeMatches(ls[i], code)
    ensures var r := Locate(ls, s, code, keywords, stripFirst);
      r.Some? && CodeMatches(ls[r.value], code) &&
      forall j :: InSection(ls, s, j) && j < r.value ==> !CodeMatches(ls[j], code)
  {
    var ts := TitlePositions(ls);
    SectionItemsAreInSection(ls, s);
    var items := SectionItems(ls, ts[s]);
    var c := FirstCode(ls, items, code);
    assert c < |items| by {
      var m :| 0 <= m < |items| && items[m] == i;
    }
    assert Locate(ls, s, code, keywords, stripFirst) == Some(items[c]);
    forall j | InSection(ls, s, j) && j < items[c] ensures !CodeMatches(ls[j], code) {
      EarlierIsListedEarlier(items, c, j);
      var m :| 0 <= m < c && items[m] == j;
    }
  }

  /** Among items none of whose codes match, the choice is the first keyword match. */
  lemma ChooseByKeyword(ls: seq<Landmark>, items: seq<nat>, code: string, keywords: seq<string>, stripFirst: bool, m: nat)
    requires ValidPositions(ls, items)
    requires forall x :: 0 <= x < |items| ==> !CodeMatches(ls[items[x]], code)
    requires m < |items| && KeywordMatches(ls[items[m]], keywords, stripFirst)
    ensures var w := FirstKeyword(ls, items, keywords, stripFirst);
      w <= m && Choose(ls, items, code, keywords, stripFirst) == Some(items[w])
  {
    assert FirstCode(ls, items, code) == |items|;
  }

  /** With no code match in the section, a keyword match wins: the lookup answers with the first such item. */
  lemma LocateThenKeyword(ls: seq<Landmark>, s: nat, code: string, keywords: seq<string>, stripFirst: bool, i: nat)
    requires forall j :: InSection(ls, s, j) ==> !CodeMatches(ls[j], code)
    requires InSection(ls, s, i) && KeywordMatches(ls[i], keywords, stripFirst)
    ensures var r := Locate(ls, s, code, keywords, stripFirst);
      r.Some? && KeywordMatches(ls[r.value], keywords, stripFirst) &&
      forall j :: InSection(ls, s, j) && j < r.value ==> !KeywordMatches(ls[j], keywords, stripFirst)
  {
    var ts := TitlePositions(ls);
    SectionItemsAreInSection(ls, s);
    var items := SectionItems(ls, ts[s]);
    forall x | 0 <= x < |items| ensures !CodeMatches(ls[items[x]], code) {
      assert items[x] in items;
    }
    var m :| 0 <= m < |items| && items[m] == i;
    ChooseByKeyword(ls, items, code, keywords, stripFirst, m);
    var w := FirstKeyword(ls, items, keywords, stripFirst);
    forall j | InSection(ls, s, j) && j < items[w] ensures !KeywordMatches(ls[j], keywords, stripFirst) {
      EarlierIsListedEarlier(items, w, j);
      var m :| 0 <= m < w && items[m] == j;
    }
  }

  /** With neither a code nor a keyword match in the section, the lookup answers with its first item. */
  lemma LocateThenFirst(ls: seq<Landmark>, s: nat, code: string, keywords: seq<string>, stripFirst: bool)
    requires forall j :: InSection(ls, s, j) ==> !CodeMatches(ls[j], code) && !KeywordMatches(ls[j], keywords, stripFirst)
    ensures var r := Locate(ls, s, code, keywords, stripFirst);
      r.Some? ==> forall j :: InSection(ls, s, j) ==> r.value <= j
  {
    var ts := TitlePositions(ls);
    if s < |ts| {
      SectionItemsAreInSection(ls, s);
      var items := SectionItems(ls, ts[s]);
      var c := FirstCode(ls, items, code);
      var w := FirstKeyword(ls, items, keywords, stripFirst);
      assert c == |items| && w == |items|;
      if items != [] {
        forall j | InSection(ls, s, j) ensures items[0] <= j {
          var m :| 0 <= m < |items| && items[m] == j;
        }
      }
    }
  }


  /** A form whose only section holds only item 1. */
  predicate OneItemForm(nodes: seq<Node>) {
    |nodes| == 2 && nodes[0].SectionTitle? && nodes[1].Item?
  }

  /** On such a form, section 0 starts at 0 and runs to the end. */
  lemma OneItemFormBounds(nodes: seq<Node>)
    requires OneItemForm(nodes)
    ensures TitlePositions(Landmarks(nodes)) == [0]
    ensures BoundaryFrom(Landmarks(nodes), 1) == 2
  {
    var ls := Landmarks(nodes);
    assert ls[0] == TitleMark && ls[1].ItemMark?;
    assert ls[..1] == [TitleMark] && [TitleMark][..0] == [];
    assert TitlePositions([TitleMark]) == [0];
    assert BoundaryFrom(ls, 2) == 2;
  }

  /** On such a form, item 1 is the only item of section 0. */
  lemma OneItemFormSection(nodes: seq<Node>)
    requires OneItemForm(nodes)
    ensures InSection(Landmarks(nodes), 0, 1)
    ensures forall j :: InSection(Landmarks(nodes), 0, j) ==> j == 1
  {
    OneItemFormBounds(nodes);
    assert Landmarks(nodes)[1].ItemMark?;
  }

  /** On such a form, every lookup in section 0 finds item 1. */
  lemma OneItemFormLocates(nodes: seq<Node>, code: string, keywords: seq<string>, stripFirst: bool)
    requires OneItemForm(nodes)
    ensures Locate(Landmarks(nodes), 0, code, keywords, stripFirst) == Some(1)
  {
    OneItemFormSection(nodes);
    LocateAnswersInSection(Landmarks(nodes), 0, code, keywords, stripFirst);
  }

  // ---------------------------------------------------------------------
  // Checking the status box and writing comments

  /** The checkbox a status names, compared without regard to case (I, NI,
      NP, D are the first four boxes of `.checks`); -1 for any other status. */
  function StatusIndex(status: string): (r: int)
    ensures -1 <= r <= 3
    ensures r == 0 <==> status == "I" || status == "i"
    ensures r == 1 <==> status in {"NI", "Ni", "nI", "ni"}
    ensures r == 2 <==> status in {"NP", "Np", "nP", "np"}
    ensures r == 3 <==> status == "D" || status == "d"
  {
    UpperIsPair(status, 'N', 'I');
    UpperIsPair(status, 'N', 'P');
    var u := Upper(status);
    if u == "I" then 0 else if u == "NI" then 1 else if u == "NP" then 2 else if u == "D" then 3 else -1
  }

  /** The two-letter strings that upper-case to `[a, b]`. */
  lemma UpperIsPair(s: string, a: char, b: char)
    requires 'A' <= a <= 'Z' && 'A' <= b <= 'Z'
    ensures Upper(s) == [a, b] <==>
      s in {[a, b], [a, LowerChar(b)], [LowerChar(a), b], [LowerChar(a), LowerChar(b)]}
  {
    if |s| == 2 {
      assert s == [s[0], s[1]];
      if Upper(s) == [a, b] {
        assert UpperChar(s[0]) == a && UpperChar(s[1]) == b;
      }
    }
  }

  /** The checkboxes after `check_status_checkbox`: the box the status names is
      checked when there is such a box; every other box keeps its state. */
  function WithStatusChecked(checks: seq<bool>, status: string): (r: seq<bool>)
    ensures |r| == |checks|
    ensures forall k :: 0 <= k < |r| ==> r[k] == (checks[k] || k == StatusIndex(status))
  {
    var idx := StatusIndex(status);
    if 0 <= idx < |checks| then checks[idx := true] else checks
  }

  /** Checking the same status twice is checking it once. */
  lemma StatusCheckIdempotent(checks: seq<bool>, status: string)
    ensures WithStatusChecked(WithStatusChecked(checks, status), status) == WithStatusChecked(checks, status)
  {
  }

  /** Every box checked in `a` is still checked in `b`, which has as many boxes. */
  predicate NodeChecksKept(a: Node, b: Node) {
    a.Item? && a.checks.Some? ==>
      b.Item? && b.checks.Some? && |b.checks.value| == |a.checks.value| &&
      forall k :: 0 <= k < |a.checks.value| && a.checks.value[k] ==> b.checks.value[k]
  }

  /** No checkbox of the form was unchecked between `a` and `b`. */
  predicate ChecksKept(a: seq<Node>, b: seq<Node>) {
    |a| == |b| && forall i :: 0 <= i < |a| ==> NodeChecksKept(a[i], b[i])
  }

  lemma ChecksKeptTrans(a: seq<Node>, b: seq<Node>, c: seq<Node>)
    requires ChecksKept(a, b) && ChecksKept(b, c)
    ensures ChecksKept(a, c)
  {
    forall i | 0 <= i < |a| ensures NodeChecksKept(a[i], c[i]) {
      assert NodeChecksKept(a[i], b[i]) && NodeChecksKept(b[i], c[i]);
    }
  }

  /** Item `j` has a `.checks` container. */
  predicate HasChecks(nodes: seq<Node>, j: nat) {
    j < |nodes| && nodes[j].Item? && nodes[j].checks.Some?
  }

  /** Item `j` has a `.comments` element inside `.comments-inline`. */
  predicate HasInlineBox(nodes: seq<Node>, j: nat) {
    j < |nodes| && nodes[j].Item? && nodes[j].comments.Some? && nodes[j].comments.value.inline
  }

  /** What item `j`'s comments box holds. */
  function ContentAt(nodes: seq<Node>, j: nat): seq<Fragment>
    requires HasInlineBox(nodes, j)
  {
    nodes[j].comments.value.content
  }

  /** The form after checking `status` in item `j`'s `.checks`, if it has one. */
  function CheckStatusAt(nodes: seq<Node>, j: nat, status: string): (r: seq<Node>)
    ensures |r| == |nodes| && Landmarks(r) == Landmarks(nodes)
    ensures forall i :: 0 <= i < |nodes| && i != j ==> r[i] == nodes[i]
    ensures HasChecks(nodes, j) ==>
      r[j] == nodes[j].(checks := Some(WithStatusChecked(nodes[j].checks.value, status)))
    ensures !HasChecks(nodes, j) ==> r == nodes
    ensures ChecksKept(nodes, r)
  {
    if HasChecks(nodes, j) then
      var r := nodes[j := nodes[j].(checks := Some(WithStatusChecked(nodes[j].checks.value, status)))];
      assert forall i :: 0 <= i < |r| ==> LandmarkOf(r[i]) == LandmarkOf(nodes[i]);
      r
    else nodes
  }

  /** The form after replacing what item `j`'s inline comments box holds, if it has one. */
  function SetContentAt(nodes: seq<Node>, j: nat, content: seq<Fragment>): (r: seq<Node>)
    ensures |r| == |nodes| && Landmarks(r) == Landmarks(nodes)
    ensures forall i :: 0 <= i < |nodes| && i != j ==> r[i] == nodes[i]
    ensures HasInlineBox(nodes, j) ==>
      HasInlineBox(r, j) && ContentAt(r, j) == content && r[j].checks == nodes[j].checks &&
      r[j].comments.value.editable == nodes[j].comments.value.editable
    ensures !HasInlineBox(nodes, j) ==> r == nodes
    ensures ChecksKept(nodes, r)
  {
    if HasInlineBox(nodes, j) then
      var r := nodes[j := nodes[j].(comments := Some(nodes[j].comments.value.(content := content)))];
      assert forall i :: 0 <= i < |r| ==> LandmarkOf(r[i]) == LandmarkOf(nodes[i]);
      r
    else nodes
  }

  // ---------------------------------------------------------------------
  // Removing the sections that hold no data

  /** An item holds data: its editable comments box shows text, or one of its
      checkboxes is checked. */
  predicate HasData(n: Node)
    ensures HasData(n) ==> n.Item?
  {
    n.Item? &&
    ((n.comments.Some? && n.comments.value.editable && HasText(n.comments.value.content)) ||
     (n.checks.Some? && true in n.checks.value))
  }

  /** Checking a recognised status in an item's boxes gives the item data, so
      its section survives removal; checking never takes data away. */
  lemma CheckedStatusGivesData(nodes: seq<Node>, j: nat, status: string)
    requires HasChecks(nodes, j)
    ensures var r := CheckStatusAt(nodes, j, status);
      0 <= StatusIndex(status) < |nodes[j].checks.value| ==> HasData(r[j])
    ensures HasData(nodes[j]) ==> HasData(CheckStatusAt(nodes, j, status)[j])
  {
    var r := CheckStatusAt(nodes, j, status);
    var idx := StatusIndex(status);
    if 0 <= idx < |nodes[j].checks.value| {
      assert r[j].checks.value[idx];
    }
    if HasData(nodes[j]) && nodes[j].checks.Some? && true in nodes[j].checks.value {
      var k :| 0 <= k < |nodes[j].checks.value| && nodes[j].checks.value[k];
      assert r[j].checks.value[k];
    }
  }

  /** Some item between the start of `s` and the next title or page end holds data. */
  predicate SectionHasData(s: seq<Node>) {
    s != [] && !IsBoundary(s[0]) && (HasData(s[0]) || SectionHasData(s[1..]))
  }

  /** `remove_empty_sections` over a suffix of the form: a title whose section
      holds no data is dropped together with that section's items (other
      elements stay); `dropping` says the suffix starts inside such a section. */
  function Prune(s: seq<Node>, dropping: bool): (r: seq<Node>)
    ensures |r| <= |s|
    ensures forall x :: x in r ==> x in s
    ensures !dropping && (forall i :: 0 <= i < |s| ==> !s[i].SectionTitle?) ==> r == s
  {
    if s == [] then []
    else if s[0].SectionTitle? then
      if SectionHasData(s[1..]) then [s[0]] + Prune(s[1..], false) else Prune(s[1..], true)
    else if s[0].PageEnd? then [s[0]] + Prune(s[1..], false)
    else if s[0].Item? && dropping then Prune(s[1..], true)
    else [s[0]] + Prune(s[1..], dropping)
  }

  /** `remove_empty_sections`: afterwards every title left heads a section
      with data. */
  function RemoveEmpty(nodes: seq<Node>): (r: seq<Node>)
    ensures |r| <= |nodes|
    ensures WellPruned(r)
  {
    PruneIsWellPruned(nodes, false);
    Prune(nodes, false)
  }

  /** One step of `Prune`, at position `i` of `s`. */
  lemma PruneAt(s: seq<Node>, i: nat, dropping: bool)
    requires i < |s|
    ensures Prune(s[i..], dropping) ==
      if s[i].SectionTitle? then
        (if SectionHasData(s[i + 1..]) then [s[i]] + Prune(s[i + 1..], false) else Prune(s[i + 1..], true))
      else if s[i].PageEnd? then [s[i]] + Prune(s[i + 1..], false)
      else if s[i].Item? && dropping then Prune(s[i + 1..], true)
      else [s[i]] + Prune(s[i + 1..], dropping)
  {
    assert s[i..][1..] == s[i + 1..];
  }

  /** The has-data walk of `remove_empty_sections`: from `start`, up to the
      next title or the end of the siblings, stop at the first item holding data. */
  method SectionScan(nodes: seq<Node>, start: nat) returns (hasData: bool)
    requires start <= |nodes|
    ensures hasData == SectionHasData(nodes[start..])
  {
    var current := start;
    while current < |nodes| && !IsBoundary(nodes[current])
      invariant start <= current <= |nodes|
      invariant SectionHasData(nodes[start..]) == SectionHasData(nodes[current..])
      decreases |nodes| - current
    {
      assert nodes[current..][1..] == nodes[current + 1..];
      if HasData(nodes[current]) {
        return true;
      }
      current := current + 1;
    }
    return false;
  }

  /** One sibling of `remove_empty_sections`: a title is kept when its section
      holds data and otherwise starts a dropped section; a page end ends any
      dropped section; an item of a dropped section goes; anything else stays. */
  method PruneStep(siblings: seq<Node>, i: nat, dropping: bool) returns (keep: seq<Node>, next: bool)
    requires i < |siblings|
    ensures keep + Prune(siblings[i + 1..], next) == Prune(siblings[i..], dropping)
  {
    PruneAt(siblings, i, dropping);
    var current := siblings[i];
    if current.SectionTitle? {
      var hasData := SectionScan(siblings, i + 1);
      keep, next := if hasData then [current] else [], !hasData;
    } else if current.PageEnd? {
      keep, next := [current], false;
    } else if current.Item? && dropping {
      keep, next := [], true;
    } else {
      keep, next := [current], dropping;
    }
  }

  /** The walk of `remove_empty_sections` over the siblings, in one pass:
      `dropping` says the walk is inside a section found to hold no data. */
  method PruneSiblings(siblings: seq<Node>) returns (kept: seq<Node>)
    ensures kept == RemoveEmpty(siblings)
  {
    kept := [];
    var dropping := false;
    assert siblings[0..] == siblings;
    for i := 0 to |siblings|
      invariant kept + Prune(siblings[i..], dropping) == RemoveEmpty(siblings)
    {
      var keep, next := PruneStep(siblings, i, dropping);
      NodesAssoc(kept, keep, Prune(siblings[i + 1..], next));
      kept := kept + keep;
      dropping := next;
    }
    assert siblings[|siblings|..] == [];
  }

  /** Every title left in the form heads a section that holds data. */
  predicate WellPruned(s: seq<Node>) {
    forall k :: 0 <= k < |s| && s[k].SectionTitle? ==> SectionHasData(s[k + 1..])
  }

  /** The items holding data, in document order. */
  function DataItems(s: seq<Node>): seq<Node> {
    if s == [] then [] else (if HasData(s[0]) then [s[0]] else []) + DataItems(s[1..])
  }

  /** Whether a node is neither a title nor an item (removal never touches these). */
  predicate IsFixed(n: Node) {
    !n.SectionTitle? && !n.Item?
  }

  /** The nodes that are neither titles nor items, in document order. */
  function FixedNodes(s: seq<Node>): seq<Node> {
    if s == [] then [] else (if IsFixed(s[0]) then [s[0]] else []) + FixedNodes(s[1..])
  }

  lemma WellPrunedCons(x: Node, t: seq<Node>)
    requires WellPruned(t)
    requires x.SectionTitle? ==> SectionHasData(t)
    ensures WellPruned([x] + t)
  {
    var s := [x] + t;
    forall k | 0 <= k < |s| && s[k].SectionTitle? ensures SectionHasData(s[k + 1..]) {
      assert s[k + 1..] == t[k..];
      if k > 0 {
        assert s[k] == t[k - 1];
      }
    }
  }

  lemma WellPrunedTail(s: seq<Node>)
    requires s != [] && WellPruned(s)
    ensures WellPruned(s[1..])
  {
    forall k | 0 <= k < |s| - 1 && s[1..][k].SectionTitle? ensures SectionHasData(s[1..][k + 1..]) {
      assert s[1..][k + 1..] == s[k + 2..];
    }
  }

  /** A section holding data still holds it once the form is pruned. */
  lemma {:induction false} PruneKeepsSectionData(s: seq<Node>)
    requires SectionHasData(s)
    ensures SectionHasData(Prune(s, false))
  {
    var r := Prune(s, false);
    assert r == [s[0]] + Prune(s[1..], false);
    assert r[1..] == Prune(s[1..], false);
    if !HasData(s[0]) {
      PruneKeepsSectionData(s[1..]);
    }
  }

  /** After pruning, every remaining title heads a section with data. */
  lemma {:induction false} PruneIsWellPruned(s: seq<Node>, dropping: bool)
    ensures WellPruned(Prune(s, dropping))
  {
    if s != [] {
      if s[0].SectionTitle? {
        PruneIsWellPruned(s[1..], false);
        PruneIsWellPruned(s[1..], true);
        if SectionHasData(s[1..]) {
          PruneKeepsSectionData(s[1..]);
          WellPrunedCons(s[0], Prune(s[1..], false));
        }
      } else if s[0].PageEnd? {
        PruneIsWellPruned(s[1..], false);
        WellPrunedCons(s[0], Prune(s[1..], false));
      } else if s[0].Item? && dropping {
        PruneIsWellPruned(s[1..], true);
      } else {
        PruneIsWellPruned(s[1..], dropping);
        WellPrunedCons(s[0], Prune(s[1..], dropping));
      }
    }
  }

  /** A form whose every title heads a section with data is left as it is. */
  lemma {:induction false} PruneKeepsWellPruned(s: seq<Node>)
    requires WellPruned(s)
    ensures Prune(s, false) == s
  {
    if s != [] {
      WellPrunedTail(s);
      PruneKeepsWellPruned(s[1..]);
      assert s[0].SectionTitle? ==> SectionHasData(s[1..]);
      assert s == [s[0]] + s[1..];
    }
  }

  /** Removing empty sections a second time removes nothing more. */
  lemma RemoveEmptyIdempotent(nodes: seq<Node>)
    ensures RemoveEmpty(RemoveEmpty(nodes)) == RemoveEmpty(nodes)
  {
    PruneIsWellPruned(nodes, false);
    PruneKeepsWellPruned(RemoveEmpty(nodes));
  }

  /** Items holding data are never removed, nor reordered. */
  lemma {:induction false} PruneKeepsData(s: seq<Node>, dropping: bool)
    requires dropping ==> !SectionHasData(s)
    ensures DataItems(Prune(s, dropping)) == DataItems(s)
  {
    if s != [] {
      var x := s[0];
      if x.SectionTitle? {
        if SectionHasData(s[1..]) {
          PruneKeepsData(s[1..], false);
          assert ([x] + Prune(s[1..], false))[1..] == Prune(s[1..], false);
        } else {
          PruneKeepsData(s[1..], true);
        }
      } else if x.PageEnd? {
        PruneKeepsData(s[1..], false);
        assert ([x] + Prune(s[1..], false))[1..] == Prune(s[1..], false);
      } else if x.Item? && dropping {
        PruneKeepsData(s[1..], true);
      } else {
        PruneKeepsData(s[1..], dropping);
        assert ([x] + Prune(s[1..], dropping))[1..] == Prune(s[1..], dropping);
      }
    }
  }

  /** Removal touches titles and items only. */
  lemma {:induction false} PruneKeepsFixed(s: seq<Node>, dropping: bool)
    ensures FixedNodes(Prune(s, dropping)) == FixedNodes(s)
  {
    if s != [] {
      var x := s[0];
      var rest := s[1..];
      assert FixedNodes(s) == (if IsFixed(x) then [x] else []) + FixedNodes(rest);
      if x.SectionTitle? {
        if SectionHasData(rest) {
          PruneKeepsFixed(rest, false);
          FixedNodesCons(x, Prune(rest, false));
        } else {
          PruneKeepsFixed(rest, true);
        }
      } else if x.PageEnd? {
        PruneKeepsFixed(rest, false);
        FixedNodesCons(x, Prune(rest, false));
      } else if x.Item? && dropping {
        PruneKeepsFixed(rest, true);
      } else {
        PruneKeepsFixed(rest, dropping);
        FixedNodesCons(x, Prune(rest, dropping));
      }
    }
  }

  lemma FixedNodesCons(x: Node, t: seq<Node>)
    ensures FixedNodes([x] + t) == (if IsFixed(x) then [x] else []) + FixedNodes(t)
  {
    assert ([x] + t)[1..] == t;
  }

  /** `remove_empty_sections` keeps every item that holds data, every element
      that is neither a title nor an item, and leaves only titles of sections
      that hold data. */
  lemma RemoveEmptyKeepsData(nodes: seq<Node>)
    ensures DataItems(RemoveEmpty(nodes)) == DataItems(nodes)
    ensures FixedNodes(RemoveEmpty(nodes)) == FixedNodes(nodes)
    ensures WellPruned(RemoveEmpty(nodes))
  {
    PruneKeepsData(nodes, false);
    PruneKeepsFixed(nodes, false);
    PruneIsWellPruned(nodes, false);
  }

  /** The has-data walk stops at the next title or page end, so cutting the
      nodes there does not change its answer. */
  lemma {:induction false} SectionHasDataCut(x: seq<Node>, t: nat)
    requires t <= |x|
    requires t == |x| || IsBoundary(x[t])
    ensures SectionHasData(x[..t]) == SectionHasData(x)
  {
    if t > 0 {
      assert x[..t][1..] == x[1..][..t - 1];
      SectionHasDataCut(x[1..], t - 1);
    }
  }

  /** Removal works section by section: the nodes before a title or a page
      end are pruned on their own, and what follows that boundary is pruned
      from a clean state. */
  lemma {:induction false} PruneSplit(s: seq<Node>, t: nat, dropping: bool)
    requires t <= |s|
    requires t == |s| || IsBoundary(s[t])
    ensures Prune(s, dropping) == Prune(s[..t], dropping) + Prune(s[t..], false)
  {
    if t == 0 {
      assert s[..0] == [] && s[0..] == s;
      PruneFromBoundary(s, dropping);
    } else {
      var x := s[0];
      var rest := s[1..];
      var p := s[..t];
      var a := rest[..t - 1];
      var b := rest[t - 1..];
      assert p[0] == x && p[1..] == a;
      assert s[t..] == b;
      SectionHasDataCut(rest, t - 1);
      var next := if x.SectionTitle? then !SectionHasData(rest) else if x.PageEnd? then false else dropping;
      var head := if (x.SectionTitle? && next) || (x.Item? && dropping) then [] else [x];
      PruneSplit(rest, t - 1, next);
      var pa, pb := Prune(a, next), Prune(b, false);
      PruneHead(s, dropping, next, head);
      PruneHead(p, dropping, next, head);
      assert Prune(s, dropping) == head + (pa + pb);
      assert Prune(p, dropping) == head + pa;
      NodesAssoc(head, pa, pb);
    }
  }

  lemma SliceCons(s: seq<Node>, i: nat, e: nat)
    requires i < e <= |s|
    ensures s[i..e] == [s[i]] + s[i + 1..e]
  {
  }

  lemma NodesAssoc(a: seq<Node>, b: seq<Node>, c: seq<Node>)
    ensures a + (b + c) == a + b + c
  {
  }

  /** `Prune` at the first node: what it keeps of that node, and the state it
      leaves for the rest. */
  lemma PruneHead(s: seq<Node>, dropping: bool, next: bool, head: seq<Node>)
    requires s != []
    requires next == if s[0].SectionTitle? then !SectionHasData(s[1..]) else if s[0].PageEnd? then false else dropping
    requires head == if (s[0].SectionTitle? && next) || (s[0].Item? && dropping) then [] else [s[0]]
    ensures Prune(s, dropping) == head + Prune(s[1..], next)
  {
  }

  /** What follows a title or a page end is pruned the same in either state. */
  lemma PruneFromBoundary(s: seq<Node>, dropping: bool)
    requires s == [] || IsBoundary(s[0])
    ensures Prune(s, dropping) == Prune(s, false)
  {
  }

  /** Between two boundaries nothing is removed unless the section is being
      dropped, and then exactly the items go. */
  lemma {:induction false} PruneRun(x: seq<Node>)
    requires forall i :: 0 <= i < |x| ==> !IsBoundary(x[i])
    ensures Prune(x, false) == x
    ensures Prune(x, true) == FixedNodes(x)
  {
    if x != [] {
      PruneRun(x[1..]);
      assert x == [x[0]] + x[1..];
    }
  }

  /** `remove_empty_sections` leaves a section that holds data in place and
      whole: its title and everything up to the next title or page end come
      through unchanged and in order, between the pruned nodes before it and
      the pruned nodes after it. */
  lemma PopulatedSectionKept(s: seq<Node>, t: nat)
    requires t < |s| && s[t].SectionTitle? && SectionHasData(s[t + 1..])
    ensures var e := BoundaryFrom(Landmarks(s), t + 1);
      RemoveEmpty(s) == RemoveEmpty(s[..t]) + s[t..e] + RemoveEmpty(s[e..])
  {
    var e := SectionBounds(s, t);
    var before, section, after := s[..t], s[t..e], s[e..];
    var rest := SectionRest(s, t, e, false);
    PruneSplit(s, t, false);
    assert Prune(s[t..], false) == [s[t]] + rest by {
      assert s[t..][1..] == s[t + 1..];
    }
    SliceCons(s, t, e);
    PruneRun(s[t + 1..e]);
    NodesAssoc([s[t]], s[t + 1..e], RemoveEmpty(after));
    NodesAssoc(RemoveEmpty(before), section, RemoveEmpty(after));
  }

  /** `remove_empty_sections` drops a section that holds no data: its title
      and its items go, the other nodes up to the next title or page end
      stay, and the nodes before and after it are pruned on their own. */
  lemma EmptySectionDropped(s: seq<Node>, t: nat)
    requires t < |s| && s[t].SectionTitle? && !SectionHasData(s[t + 1..])
    ensures var e := BoundaryFrom(Landmarks(s), t + 1);
      RemoveEmpty(s) == RemoveEmpty(s[..t]) + FixedNodes(s[t + 1..e]) + RemoveEmpty(s[e..])
  {
    var e := SectionBounds(s, t);
    var before, after := s[..t], s[e..];
    var rest := SectionRest(s, t, e, true);
    PruneSplit(s, t, false);
    assert Prune(s[t..], false) == rest by {
      assert s[t..][1..] == s[t + 1..];
    }
    PruneRun(s[t + 1..e]);
    NodesAssoc(RemoveEmpty(before), FixedNodes(s[t + 1..e]), RemoveEmpty(after));
  }

  /** The nodes after a title, pruned: the section's own nodes, then the
      nodes from the next title or page end on. */
  lemma SectionRest(s: seq<Node>, t: nat, e: nat, dropping: bool) returns (rest: seq<Node>)
    requires t + 1 <= e <= |s|
    requires e == |s| || IsBoundary(s[e])
    ensures rest == Prune(s[t + 1..], dropping)
    ensures rest == Prune(s[t + 1..e], dropping) + RemoveEmpty(s[e..])
  {
    var u := s[t + 1..];
    PruneSplit(u, e - t - 1, dropping);
    assert u[..e - t - 1] == s[t + 1..e] && u[e - t - 1..] == s[e..];
    rest := Prune(u, dropping);
  }

  /** The end of the section whose title is at `t`, read on the nodes. */
  lemma SectionBounds(s: seq<Node>, t: nat) returns (e: nat)
    requires t < |s|
    ensures e == BoundaryFrom(Landmarks(s), t + 1)
    ensures t + 1 <= e <= |s|
    ensures forall i :: t + 1 <= i < e ==> !IsBoundary(s[i])
    ensures e == |s| || IsBoundary(s[e])
  {
    var ls := Landmarks(s);
    e := BoundaryFrom(ls, t + 1);
    forall i | t + 1 <= i < e
      ensures !IsBoundary(s[i])
    {
      assert ls[i] == LandmarkOf(s[i]);
    }
    if e < |s| {
      assert ls[e] == LandmarkOf(s[e]);
    }
  }

  // ---------------------------------------------------------------------
  // Page numbers

  /** The number of `.page` elements: none exactly when no node ends a page. */
  function CountPages(s: seq<Node>): (n: nat)
    ensures n <= |s|
    ensures n == 0 <==> forall i :: 0 <= i < |s| ==> !s[i].PageEnd?
  {
    if s == [] then 0
    else
      assert forall i :: 1 <= i < |s| ==> s[i] == s[1..][i - 1];
      (if s[0].PageEnd? then 1 else 0) + CountPages(s[1..])
  }

  /** Every page-count input shows `v`; nothing else changes. */
  function WithPageCount(nodes: seq<Node>, v: string): (r: seq<Node>)
    ensures |r| == |nodes|
    ensures forall i :: 0 <= i < |nodes| ==> r[i] == (if nodes[i].PageCountInput? then PageCountInput(v) else nodes[i])
  {
    seq(|nodes|, i requires 0 <= i < |nodes| => if nodes[i].PageCountInput? then PageCountInput(v) else nodes[i])
  }

  lemma {:induction false} CountPagesOfFixed(s: seq<Node>)
    ensures CountPages(FixedNodes(s)) == CountPages(s)
  {
    if s != [] {
      CountPagesOfFixed(s[1..]);
      if IsFixed(s[0]) {
        assert ([s[0]] + FixedNodes(s[1..]))[1..] == FixedNodes(s[1..]);
      } else {
        assert FixedNodes(s) == FixedNodes(s[1..]);
      }
    }
  }

  /** Removing empty sections does not change the number of pages. */
  lemma RemoveEmptyKeepsPages(nodes: seq<Node>)
    ensures CountPages(RemoveEmpty(nodes)) == CountPages(nodes)
  {
    RemoveEmptyKeepsData(nodes);
    CountPagesOfFixed(nodes);
    CountPagesOfFixed(RemoveEmpty(nodes));
  }

  /** Writing the page count into the inputs leaves the number of pages as it was. */
  lemma {:induction false} WithPageCountKeepsPages(nodes: seq<Node>, v: string)
    ensures CountPages(WithPageCount(nodes, v)) == CountPages(nodes)
  {
    if nodes != [] {
      WithPageCountKeepsPages(nodes[1..], v);
      assert WithPageCount(nodes, v)[1..] == WithPageCount(nodes[1..], v);
    }
  }

  /** The number of pages is read off the landmarks, which populating keeps. */
  lemma {:induction false} CountPagesOfLandmarks(a: seq<Node>, b: seq<Node>)
    requires Landmarks(a) == Landmarks(b)
    ensures CountPages(a) == CountPages(b)
  {
    if a != [] {
      assert LandmarkOf(a[0]) == LandmarkOf(b[0]);
      assert Landmarks(a[1..]) == Landmarks(a)[1..];
      assert Landmarks(b[1..]) == Landmarks(b)[1..];
      CountPagesOfLandmarks(a[1..], b[1..]);
    }
  }

  lemma {:induction false} SectionHasDataOfPageCount(s: seq<Node>, v: string)
    ensures SectionHasData(WithPageCount(s, v)) == SectionHasData(s)
  {
    if s != [] {
      assert WithPageCount(s, v)[1..] == WithPageCount(s[1..], v);
      SectionHasDataOfPageCount(s[1..], v);
    }
  }

  /** Writing the page count does not bring back an empty section. */
  lemma WithPageCountKeepsWellPruned(s: seq<Node>, v: string)
    requires WellPruned(s)
    ensures WellPruned(WithPageCount(s, v))
  {
    var r := WithPageCount(s, v);
    forall k | 0 <= k < |r| && r[k].SectionTitle? ensures SectionHasData(r[k + 1..]) {
      assert r[k + 1..] == WithPageCount(s[k + 1..], v);
      SectionHasDataOfPageCount(s[k + 1..], v);
    }
  }
}
