/**
 * The Python populator `CompleteTRECPopulator`: the specification of
 * `populate_all_sections` as a fold over the report, the header update, and
 * the class itself, whose methods change the form in place.
 */
module Populator {
  import opened Wrappers
  import opened Text
  import opened JsonValues
  import opened Inspection
  import opened Fragments
  import opened Form
  import opened Mapping

  /** `k` holds decimal digits up to an underscore at `d`, reading as the
      target's section, and the target's code after it. */
  predicate KeyReadsAt(k: string, d: int, t: Target) {
    0 < d < |k| && k[d] == '_' && (forall i :: 0 <= i < d ==> IsDigit(k[i])) &&
    DigitsValue(k[..d]) == t.section && k[d + 1..] == t.code
  }

  /** `f"{section_idx}_{item_code}"`, the key of `processed_items`: the
      section's decimal digits, then the first underscore, then the code. */
  function ItemKey(t: Target): (k: string)
    ensures exists d :: KeyReadsAt(k, d, t)
  {
    var digits := NatToString(t.section);
    var k := digits + "_" + t.code;
    NatToStringRoundTrip(t.section);
    assert k[..|digits|] == digits && k[|digits| + 1..] == t.code;
    assert KeyReadsAt(k, |digits|, t);
    k
  }

  /** A key names one section and one code: two targets with the same key
      agree on both. */
  lemma ItemKeyInjective(a: Target, b: Target)
    requires ItemKey(a) == ItemKey(b)
    ensures a.section == b.section && a.code == b.code
  {
    var k := ItemKey(a);
    var da :| KeyReadsAt(k, da, a);
    var db :| KeyReadsAt(k, db, b);
  }

  /** `[kw.lower() for kw in item_title.split()]`: no keyword for a blank
      title, and never an empty keyword. */
  function PyKeywords(title: string): (ks: seq<string>)
    ensures ks == [] <==> IsBlank(title)
    ensures forall k :: 0 <= k < |ks| ==> ks[k] != []
  {
    WordsEmptyIffBlank(title);
    LowerEach(Words(title))
  }

  /** The status is truthy: present and not "". A line item with a truthy
      status is never skipped as empty. */
  predicate HasStatus(li: LineItem)
    ensures HasStatus(li) ==> !IsEmptyItem(li)
  {
    li.inspectionStatus.Some? && li.inspectionStatus.value != ""
  }

  // ---------------------------------------------------------------------
  // One line item

  /** The first line item to claim a form item: its status checks a box, and
      its rendered comments, when there are any, replace the inline comments. */
  function FirstClaim(nodes: seq<Node>, j: nat, li: LineItem): (r: seq<Node>)
    ensures |r| == |nodes| && Landmarks(r) == Landmarks(nodes) && ChecksKept(nodes, r)
    ensures forall i :: 0 <= i < |nodes| && i != j ==> r[i] == nodes[i]
    ensures HasChecks(nodes, j) ==>
      r[j].checks == if HasStatus(li) then Some(WithStatusChecked(nodes[j].checks.value, li.inspectionStatus.value))
                     else nodes[j].checks
    ensures HasInlineBox(nodes, j) ==>
      HasInlineBox(r, j) &&
      ContentAt(r, j) == if Render(li.comments) != [] then Render(li.comments) else ContentAt(nodes, j)
    ensures !HasChecks(nodes, j) && !HasInlineBox(nodes, j) ==> r == nodes
  {
    var checked := if HasStatus(li) then CheckStatusAt(nodes, j, li.inspectionStatus.value) else nodes;
    var html := Render(li.comments);
    if li.comments != [] && html != [] then SetContentAt(checked, j, html) else checked
  }

  /** A later line item for an already claimed item: its rendered comments,
      when there are any, go after the existing ones behind an "Additional
      Finding" separator; no checkbox is touched. */
  function LaterClaim(nodes: seq<Node>, e: nat, li: LineItem): (r: seq<Node>)
    ensures |r| == |nodes| && Landmarks(r) == Landmarks(nodes) && ChecksKept(nodes, r)
    ensures forall i :: 0 <= i < |nodes| && i != e ==> r[i] == nodes[i]
    ensures Render(li.comments) == [] ==> r == nodes
  {
    var html := Render(li.comments);
    if HasInlineBox(nodes, e) && li.comments != [] && html != [] then
      SetContentAt(nodes, e, ContentAt(nodes, e) + [AdditionalFinding] + html)
    else nodes
  }

  /** A later claimant only adds to what the claimed item's inline box holds:
      the old content stays in front, and no checkbox changes. */
  lemma LaterClaimAppends(nodes: seq<Node>, e: nat, li: LineItem)
    ensures var r := LaterClaim(nodes, e, li);
      forall i :: 0 <= i < |nodes| && nodes[i].Item? ==> r[i].checks == nodes[i].checks
    ensures var r := LaterClaim(nodes, e, li);
      HasInlineBox(nodes, e) ==> HasInlineBox(r, e) && ContentAt(nodes, e) <= ContentAt(r, e)
    ensures HasInlineBox(nodes, e) && Render(li.comments) != [] ==>
      ContentAt(LaterClaim(nodes, e, li), e) == ContentAt(nodes, e) + [AdditionalFinding] + Render(li.comments)
  {
    var html := Render(li.comments);
    if HasInlineBox(nodes, e) && li.comments != [] && html != [] {
      var combined := ContentAt(nodes, e) + [AdditionalFinding] + html;
      assert ContentAt(nodes, e) <= combined;
    }
  }

  /** The form and `processed_items` (key to the position of the claiming item). */
  datatype Progress = Progress(nodes: seq<Node>, claimed: map<string, nat>)

  /** Every claimed position holds an item of the form. */
  predicate ClaimsValid(p: Progress) {
    forall key :: key in p.claimed ==> p.claimed[key] < |p.nodes| && p.nodes[p.claimed[key]].Item?
  }

  /** Claim the item at `j` for `key`, or add to the item already stored for
      `key`. */
  function Claim(p: Progress, j: nat, key: string, li: LineItem): (q: Progress)
    ensures Landmarks(q.nodes) == Landmarks(p.nodes) && ChecksKept(p.nodes, q.nodes)
    ensures forall k :: k in p.claimed ==> k in q.claimed && q.claimed[k] == p.claimed[k]
    ensures ClaimsValid(p) && j < |p.nodes| && p.nodes[j].Item? ==> ClaimsValid(q)
    ensures key in p.claimed ==> q == p.(nodes := LaterClaim(p.nodes, p.claimed[key], li))
    ensures key !in p.claimed ==> q == Progress(FirstClaim(p.nodes, j, li), p.claimed[key := j])
  {
    var q := if key in p.claimed then p.(nodes := LaterClaim(p.nodes, p.claimed[key], li))
             else Progress(FirstClaim(p.nodes, j, li), p.claimed[key := j]);
    SameLandmarksSameItems(p.nodes, q.nodes);
    q
  }

  /** The body of the inner loop of `populate_all_sections` for one non-empty
      line item whose name resolved to `mapping`: locate the target, then
      claim it or add to the item that claimed its key. The step moves no
      element, unchecks no box and forgets no claim. */
  function Reconcile(p: Progress, li: LineItem, mapping: Resolution): (q: Progress)
    ensures Landmarks(q.nodes) == Landmarks(p.nodes) && ChecksKept(p.nodes, q.nodes)
    ensures forall key :: key in p.claimed ==> key in q.claimed && q.claimed[key] == p.claimed[key]
    ensures ClaimsValid(p) ==> ClaimsValid(q)
    ensures !mapping.Mapped? ==> q == p
  {
    match mapping
    case Mapped(t) =>
      var ls := Landmarks(p.nodes);
      var keywords := PyKeywords(t.title);
      (match Locate(ls, t.section, t.code, keywords, true)
       case None => p
       case Some(j) =>
         ItemMarkIsItem(p.nodes, j);
         Claim(p, j, ItemKey(t), li))
    case _ => p
  }

  /** The resolution of a line-item name, as a parameter of the loops. */
  type Resolver = string -> Resolution

  /** The inner loop over the non-empty line items of a section. It moves no
      element of the form, and a key once claimed keeps its item. */
  function PyItems(p: Progress, items: seq<LineItem>, resolve: Resolver): (q: Progress)
    ensures Landmarks(q.nodes) == Landmarks(p.nodes)
    ensures forall key :: key in p.claimed ==> key in q.claimed && q.claimed[key] == p.claimed[key]
    decreases |items|
  {
    if items == [] then p
    else
      var li := items[|items| - 1];
      Reconcile(PyItems(p, items[..|items| - 1], resolve), li, resolve(li.name))
  }

  /** One section: skipped when no line item is left after the filter. */
  function PySection(p: Progress, s: Section, resolve: Resolver): (q: Progress)
    ensures Landmarks(q.nodes) == Landmarks(p.nodes)
    ensures forall key :: key in p.claimed ==> key in q.claimed && q.claimed[key] == p.claimed[key]
  {
    var items := NonEmptyItems(s.lineItems);
    if items == [] then p else PyItems(p, items, resolve)
  }

  /** The outer loop over the report's sections: no element moves, and a key
      once claimed keeps its item to the end. */
  function PySections(p: Progress, sections: seq<Section>, resolve: Resolver): (q: Progress)
    ensures Landmarks(q.nodes) == Landmarks(p.nodes)
    ensures forall key :: key in p.claimed ==> key in q.claimed && q.claimed[key] == p.claimed[key]
    decreases |sections|
  {
    if sections == [] then p
    else PySection(PySections(p, sections[..|sections| - 1], resolve), sections[|sections| - 1], resolve)
  }

  /** `populate_all_sections`: the form after the loops, from no claimed key,
      resolving names through the Python table. It moves, adds and removes no
      element of the form, so every lookup answers as on the template, and it
      never unchecks a box. */
  function PyPopulate(nodes: seq<Node>, sections: seq<Section>): (r: seq<Node>)
    ensures Landmarks(r) == Landmarks(nodes)
    ensures ChecksKept(nodes, r)
  {
    PySectionsKeep(Progress(nodes, map[]), sections, PyResolve);
    PySections(Progress(nodes, map[]), sections, PyResolve).nodes
  }

  /** Items K and E of section 0 have different `section_code` keys. */
  lemma FirstSectionKeysDiffer()
    ensures ItemKey(FirstSectionTarget("Decks and Stairways")) != ItemKey(FirstSectionTarget("Exterior Cladding and Trim"))
  {
    assert ItemKey(FirstSectionTarget("Decks and Stairways"))[2] == 'K';
    assert ItemKey(FirstSectionTarget("Exterior Cladding and Trim"))[2] == 'E';
  }

  // ---------------------------------------------------------------------
  // What one step does

  /** A name that is not bound to a triple in the table changes nothing:
      skip entries and unknown names alike. */
  lemma PySkipsUnmapped(p: Progress, li: LineItem)
    requires forall i :: LastNamed(PyTable, li.name, i) ==> PyTable[i].1.None?
    ensures Reconcile(p, li, PyResolve(li.name)) == p
  {
  }

  /** The first claimant of a key takes the located item: the key now names
      it, its status box is checked and its comments are replaced. */
  lemma PyFirstClaimant(p: Progress, li: LineItem, t: Target, j: nat)
    requires Locate(Landmarks(p.nodes), t.section, t.code, PyKeywords(t.title), true) == Some(j)
    requires ItemKey(t) !in p.claimed
    ensures Reconcile(p, li, Mapped(t)).claimed == p.claimed[ItemKey(t) := j]
    ensures HasChecks(p.nodes, j) && HasStatus(li) ==>
      Reconcile(p, li, Mapped(t)).nodes[j].checks == Some(WithStatusChecked(p.nodes[j].checks.value, li.inspectionStatus.value))
    ensures HasInlineBox(p.nodes, j) && Render(li.comments) != [] ==>
      ContentAt(Reconcile(p, li, Mapped(t)).nodes, j) == Render(li.comments)
  {
  }

  /** A later claimant of a key writes into the item stored for the key:
      checkboxes stay as they are and the existing comments stay a prefix. */
  lemma PyLaterClaimant(p: Progress, li: LineItem, t: Target)
    requires ClaimsValid(p)
    requires Locate(Landmarks(p.nodes), t.section, t.code, PyKeywords(t.title), true).Some?
    requires ItemKey(t) in p.claimed
    ensures var q := Reconcile(p, li, Mapped(t)); var e := p.claimed[ItemKey(t)];
      q.claimed == p.claimed && |q.nodes| == |p.nodes| &&
      (forall i :: 0 <= i < |p.nodes| && p.nodes[i].Item? ==> q.nodes[i].Item? && q.nodes[i].checks == p.nodes[i].checks) &&
      (HasInlineBox(p.nodes, e) ==> HasInlineBox(q.nodes, e) && ContentAt(p.nodes, e) <= ContentAt(q.nodes, e)) &&
      (Render(li.comments) == [] ==> q.nodes == p.nodes)
  {
    var q := Reconcile(p, li, Mapped(t));
    var j := Locate(Landmarks(p.nodes), t.section, t.code, PyKeywords(t.title), true).value;
    assert q == Claim(p, j, ItemKey(t), li);
    LaterClaimAppends(p.nodes, p.claimed[ItemKey(t)], li);
    SameLandmarksSameItems(p.nodes, q.nodes);
  }

  lemma {:induction false} PyItemsKeep(p: Progress, items: seq<LineItem>, resolve: Resolver)
    requires ClaimsValid(p)
    ensures var q := PyItems(p, items, resolve);
      Landmarks(q.nodes) == Landmarks(p.nodes) && ChecksKept(p.nodes, q.nodes) && ClaimsValid(q)
    decreases |items|
  {
    if items != [] {
      var mid := PyItems(p, items[..|items| - 1], resolve);
      PyItemsKeep(p, items[..|items| - 1], resolve);
      ChecksKeptTrans(p.nodes, mid.nodes, PyItems(p, items, resolve).nodes);
    } else {
      assert ChecksKept(p.nodes, p.nodes);
    }
  }

  lemma {:induction false} PySectionsKeep(p: Progress, sections: seq<Section>, resolve: Resolver)
    requires ClaimsValid(p)
    ensures var q := PySections(p, sections, resolve);
      Landmarks(q.nodes) == Landmarks(p.nodes) && ChecksKept(p.nodes, q.nodes) && ClaimsValid(q)
    decreases |sections|
  {
    if sections != [] {
      var mid := PySections(p, sections[..|sections| - 1], resolve);
      PySectionsKeep(p, sections[..|sections| - 1], resolve);
      var items := NonEmptyItems(sections[|sections| - 1].lineItems);
      if items != [] {
        PyItemsKeep(mid, items, resolve);
      } else {
        assert ChecksKept(mid.nodes, mid.nodes);
      }
      ChecksKeptTrans(p.nodes, mid.nodes, PySections(p, sections, resolve).nodes);
    } else {
      assert ChecksKept(p.nodes, p.nodes);
    }
  }

  /** A section whose line items are all empty changes nothing. */
  lemma EmptySectionChangesNothing(p: Progress, s: Section, resolve: Resolver)
    requires forall k :: 0 <= k < |s.lineItems| ==> IsEmptyItem(s.lineItems[k])
    ensures PySection(p, s, resolve) == p
  {
    AllEmptyFiltersToNothing(s.lineItems);
  }

  /** Only non-empty line items are processed: an empty one may be inserted
      anywhere in a section without changing the outcome. */
  lemma EmptyItemChangesNothing(p: Progress, a: seq<LineItem>, li: LineItem, b: seq<LineItem>, name: string, resolve: Resolver)
    requires IsEmptyItem(li)
    ensures PySection(p, Section(name, a + [li] + b), resolve) == PySection(p, Section(name, a + b), resolve)
  {
    EmptyItemIsDropped(a, li, b);
  }

  // ---------------------------------------------------------------------
  // The whole run: header, sections, empty sections removed, page count

  /** The report after `remove_empty_sections` and `update_page_numbers`:
      every section left holds data, no page is lost, and every page-count
      input shows the number of pages. */
  function Finish(nodes: seq<Node>): (r: seq<Node>)
    ensures WellPruned(r) && CountPages(r) == CountPages(nodes)
    ensures forall i :: 0 <= i < |r| && r[i].PageCountInput? ==> r[i].value == NatToString(CountPages(nodes))
  {
    var pruned := RemoveEmpty(nodes);
    RemoveEmptyKeepsPages(nodes);
    RemoveEmptyKeepsData(nodes);
    WithPageCountKeepsWellPruned(pruned, NatToString(CountPages(pruned)));
    WithPageCountKeepsPages(pruned, NatToString(CountPages(pruned)));
    WithPageCount(pruned, NatToString(CountPages(pruned)))
  }

  /** What `main` produces: every section left holds data, the pages of the
      template are all there, and every page-count input shows their number. */
  lemma RunOutcome(nodes: seq<Node>, sections: seq<Section>)
    ensures var out := Finish(PyPopulate(nodes, sections));
      WellPruned(out) && CountPages(out) == CountPages(nodes) &&
      forall i :: 0 <= i < |out| && out[i].PageCountInput? ==> out[i].value == NatToString(CountPages(nodes))
  {
    CountPagesOfLandmarks(PyPopulate(nodes, sections), nodes);
  }

  // ---------------------------------------------------------------------
  // Header fields

  const EmptyObject := JObject(map[])

  /** The input ids `populate_header_fields` writes (the date is not modelled). */
  const HeaderIds: set<string> := {"client", "address", "inspector", "trec1", "sponsor", "trec2"}

  function InspectionOf(data: Json): Json { Get(data, "inspection", EmptyObject) }
  function AccountOf(data: Json): Json { Get(data, "account", EmptyObject) }

  /** The sponsor: the account's `companyName`, else its `name`. */
  function SponsorName(account: Json): (r: Json)
    ensures r == Get(account, "companyName", JString("")) || r == Get(account, "name", JString(""))
    ensures Truthy(r) <==> Truthy(Get(account, "companyName", JString(""))) || Truthy(Get(account, "name", JString("")))
  {
    var company := Get(account, "companyName", JString(""));
    if Truthy(company) then company else Get(account, "name", JString(""))
  }

  /** An input's `value` is set only when the input exists. */
  function SetIfPresent(fields: map<string, Json>, id: string, v: Json): (r: map<string, Json>)
    ensures r.Keys == fields.Keys
    ensures forall k :: k in fields && k != id ==> r[k] == fields[k]
    ensures id in fields ==> r[id] == v
  {
    if id in fields then fields[id := v] else fields
  }

  /** The values the report supplies for the header inputs; a missing key
      reads as "". The inspector's licence is the inspector's `id`. */
  function ClientName(data: Json): Json {
    Get(Get(InspectionOf(data), "clientInfo", EmptyObject), "name", JString(""))
  }
  function FullAddress(data: Json): Json {
    Get(Get(InspectionOf(data), "address", EmptyObject), "fullAddress", JString(""))
  }
  function InspectorName(data: Json): Json {
    Get(Get(InspectionOf(data), "inspector", EmptyObject), "name", JString(""))
  }
  function InspectorLicence(data: Json): Json {
    Get(Get(InspectionOf(data), "inspector", EmptyObject), "id", JString(""))
  }
  function SponsorLicence(account: Json): Json {
    Get(account, "id", JString(""))
  }

  /** The inputs written whenever they exist: client, address, inspector
      and the inspector's licence. */
  function BasicHeader(fields: map<string, Json>, data: Json): (r: map<string, Json>)
    ensures r.Keys == fields.Keys
    ensures forall id :: id in fields && id !in HeaderIds ==> r[id] == fields[id]
    ensures "client" in fields ==> r["client"] == ClientName(data)
    ensures "address" in fields ==> r["address"] == FullAddress(data)
    ensures "inspector" in fields ==> r["inspector"] == InspectorName(data)
    ensures "trec1" in fields ==> r["trec1"] == InspectorLicence(data)
    ensures "sponsor" in fields ==> r["sponsor"] == fields["sponsor"]
    ensures "trec2" in fields ==> r["trec2"] == fields["trec2"]
  {
    var inspection := InspectionOf(data);
    var inspector := Get(inspection, "inspector", EmptyObject);
    var f1 := SetIfPresent(fields, "client", Get(Get(inspection, "clientInfo", EmptyObject), "name", JString("")));
    var f2 := SetIfPresent(f1, "address", Get(Get(inspection, "address", EmptyObject), "fullAddress", JString("")));
    var f3 := SetIfPresent(f2, "inspector", Get(inspector, "name", JString("")));
    SetIfPresent(f3, "trec1", Get(inspector, "id", JString("")))
  }

  /** The sponsor inputs: each is written with the sponsor's name or licence
      when the account and that value are truthy, and is otherwise left as it
      was. */
  function SponsorUpdate(fields: map<string, Json>, account: Json): (r: map<string, Json>)
    ensures r.Keys == fields.Keys
    ensures forall id :: id in fields && id != "sponsor" && id != "trec2" ==> r[id] == fields[id]
    ensures "sponsor" in fields ==>
      r["sponsor"] == if Truthy(account) && Truthy(SponsorName(account)) then SponsorName(account) else fields["sponsor"]
    ensures "trec2" in fields ==>
      r["trec2"] == if Truthy(account) && Truthy(SponsorLicence(account)) then SponsorLicence(account) else fields["trec2"]
    ensures !Truthy(account) ==> r == fields
  {
    var sponsor := SponsorName(account);
    var f5 := if Truthy(account) && Truthy(sponsor) then SetIfPresent(fields, "sponsor", sponsor) else fields;
    var license := Get(account, "id", JString(""));
    if Truthy(account) && Truthy(license) then SetIfPresent(f5, "trec2", license) else f5
  }

  /** The `value` attributes after `populate_header_fields`: client, address,
      inspector and licence are always written when the input exists; the
      sponsor and its licence only when the account and the value are truthy;
      no other input changes. */
  function HeaderUpdate(fields: map<string, Json>, data: Json): (r: map<string, Json>)
    ensures r.Keys == fields.Keys
    ensures forall id :: id in fields && id !in HeaderIds ==> r[id] == fields[id]
    ensures "client" in fields ==> r["client"] == ClientName(data)
    ensures "address" in fields ==> r["address"] == FullAddress(data)
    ensures "inspector" in fields ==> r["inspector"] == InspectorName(data)
    ensures "trec1" in fields ==> r["trec1"] == InspectorLicence(data)
    ensures "sponsor" in fields ==>
      var account := AccountOf(data);
      r["sponsor"] == if Truthy(account) && Truthy(SponsorName(account)) then SponsorName(account) else fields["sponsor"]
    ensures "trec2" in fields ==>
      var account := AccountOf(data);
      r["trec2"] == if Truthy(account) && Truthy(SponsorLicence(account)) then SponsorLicence(account) else fields["trec2"]
  {
    SponsorUpdate(BasicHeader(fields, data), AccountOf(data))
  }

  /** Populating the header twice from the same report is populating it once. */
  lemma HeaderUpdateIdempotent(fields: map<string, Json>, data: Json)
    ensures HeaderUpdate(HeaderUpdate(fields, data), data) == HeaderUpdate(fields, data)
  {
    var once := HeaderUpdate(fields, data);
    var twice := HeaderUpdate(once, data);
    assert twice.Keys == once.Keys;
    forall id | id in twice
      ensures twice[id] == once[id]
    {
      if id !in HeaderIds {
      } else if id == "sponsor" || id == "trec2" {
      } else {
        assert id in {"client", "address", "inspector", "trec1"};
      }
    }
    assert twice == once;
  }

  // ---------------------------------------------------------------------
  // The class

  /** `CompleteTRECPopulator`: the parsed template (`nodes`), the `value`
      attributes of the header inputs by id (`fields`), the report as loaded
      (`inspectionData`) and its sections as line-item records (`sections`). */
  class TrecPopulator {
    var nodes: seq<Node>
    var fields: map<string, Json>
    const inspectionData: Json
    const sections: seq<Section>

    constructor(template: seq<Node>, inputs: map<string, Json>, data: Json, report: seq<Section>)
      ensures nodes == template && fields == inputs && inspectionData == data && sections == report
    {
      nodes := template;
      fields := inputs;
      inspectionData := data;
      sections := report;
    }

    /** `check_status_checkbox`: the box the status names, if there is one. */
    method CheckStatusCheckbox(j: nat, status: string)
      requires HasChecks(nodes, j)
      modifies this
      ensures nodes == CheckStatusAt(old(nodes), j, status) && fields == old(fields)
    {
      var checkboxes := nodes[j].checks.value;
      var idx := StatusIndex(status);
      if 0 <= idx < |checkboxes| {
        nodes := nodes[j := nodes[j].(checks := Some(checkboxes[idx := true]))];
      }
    }

    /** `find_trec_item`, with the title split into lower-cased words. */
    method FindTrecItem(sectionIndex: nat, itemCode: string, itemTitle: string) returns (r: Option<nat>)
      ensures r == Locate(Landmarks(nodes), sectionIndex, itemCode, PyKeywords(itemTitle), true)
    {
      r := FindItem(Landmarks(nodes), sectionIndex, itemCode, PyKeywords(itemTitle), true);
    }

    /** `populate_all_sections`. */
    method PopulateAllSections()
      modifies this
      ensures nodes == PyPopulate(old(nodes), sections) && fields == old(fields)
    {
      ghost var start := Progress(nodes, map[]);
      var processed: map<string, nat> := map[];
      for si := 0 to |sections|
        invariant Progress(nodes, processed) == PySections(start, sections[..si], PyResolve)
        invariant fields == old(fields)
      {
        assert sections[..si + 1][..si] == sections[..si];
        var lineItems := NonEmptyItems(sections[si].lineItems);
        if lineItems == [] {
          continue;
        }
        processed := PopulateSectionItems(processed, lineItems);
      }
      assert sections[..|sections|] == sections;
    }

    /** The inner loop of `populate_all_sections`, over the line items of one
        section that are left after the filter. */
    method PopulateSectionItems(processed: map<string, nat>, lineItems: seq<LineItem>)
      returns (claimed: map<string, nat>)
      modifies this
      ensures Progress(nodes, claimed) == PyItems(Progress(old(nodes), processed), lineItems, PyResolve)
      ensures fields == old(fields)
    {
      ghost var before := Progress(nodes, processed);
      claimed := processed;
      for ii := 0 to |lineItems|
        invariant Progress(nodes, claimed) == PyItems(before, lineItems[..ii], PyResolve)
        invariant fields == old(fields)
      {
        assert lineItems[..ii + 1][..ii] == lineItems[..ii];
        var lineItem := lineItems[ii];
        var mapping := PyResolve(lineItem.name);
        claimed := PopulateLineItem(claimed, lineItem, mapping);
      }
      assert lineItems[..|lineItems|] == lineItems;
    }

    /** The body of the inner loop of `populate_all_sections`, once the
        line item's name has resolved to `mapping`. */
    method PopulateLineItem(processed: map<string, nat>, lineItem: LineItem, mapping: Resolution)
      returns (claimed: map<string, nat>)
      modifies this
      ensures Progress(nodes, claimed) == Reconcile(Progress(old(nodes), processed), lineItem, mapping)
      ensures fields == old(fields)
    {
      claimed := processed;
      if !mapping.Mapped? {
        return;
      }
      var t := mapping.target;
      var itemKey := ItemKey(t);
      var trecItem := FindTrecItem(t.section, t.code, t.title);
      if trecItem.None? {
        return;
      }
      var j := trecItem.value;
      if itemKey in processed {
        AppendFinding(processed[itemKey], lineItem);
      } else {
        claimed := processed[itemKey := j];
        ClaimItem(j, lineItem);
      }
    }

    /** A first claimant: check the status box and replace the comments. */
    method ClaimItem(j: nat, lineItem: LineItem)
      modifies this
      ensures nodes == FirstClaim(old(nodes), j, lineItem) && fields == old(fields)
    {
      CheckClaimStatus(j, lineItem);
      ReplaceComments(j, lineItem.comments);
    }

    /** The status step of a first claim: check the status box when the status is truthy. */
    method CheckClaimStatus(j: nat, lineItem: LineItem)
      modifies this
      ensures nodes == (if HasStatus(lineItem) then CheckStatusAt(old(nodes), j, lineItem.inspectionStatus.value) else old(nodes))
      ensures fields == old(fields)
    {
      if HasChecks(nodes, j) && HasStatus(lineItem) {
        CheckStatusCheckbox(j, lineItem.inspectionStatus.value);
      }
    }

    /** The comments step of a first claim: the rendered comments, when there
        are any, replace what the inline comments box holds. */
    method ReplaceComments(j: nat, comments: seq<Comment>)
      modifies this
      ensures nodes == (if comments != [] && Render(comments) != [] then SetContentAt(old(nodes), j, Render(comments)) else old(nodes))
      ensures fields == old(fields)
    {
      if HasInlineBox(nodes, j) && comments != [] {
        var commentsHtml := FormatAllComments(comments);
        if commentsHtml != [] {
          nodes := SetContentAt(nodes, j, commentsHtml);
        }
      }
    }

    /** A later claimant: append its comments as an additional finding. */
    method AppendFinding(existing: nat, lineItem: LineItem)
      modifies this
      ensures nodes == LaterClaim(old(nodes), existing, lineItem) && fields == old(fields)
    {
      if HasInlineBox(nodes, existing) && lineItem.comments != [] {
        var newHtml := FormatAllComments(lineItem.comments);
        if newHtml != [] {
          nodes := SetContentAt(nodes, existing, ContentAt(nodes, existing) + [AdditionalFinding] + newHtml);
        }
      }
    }

    /** `remove_empty_sections`, as one pass over the siblings: `dropping`
        says the cursor is inside a section found to hold no data. */
    method RemoveEmptySections()
      modifies this
      ensures nodes == RemoveEmpty(old(nodes)) && fields == old(fields)
    {
      nodes := PruneSiblings(nodes);
    }

    /** `update_page_numbers`: every page-count input shows the number of pages. */
    method UpdatePageNumbers() returns (totalPages: nat)
      modifies this
      ensures totalPages == CountPages(old(nodes))
      ensures nodes == WithPageCount(old(nodes), NatToString(totalPages)) && fields == old(fields)
    {
      totalPages := CountPages(nodes);
      var value := NatToString(totalPages);
      for i := 0 to |nodes|
        invariant |nodes| == |old(nodes)| && fields == old(fields)
        invariant forall k :: 0 <= k < i ==> nodes[k] == WithPageCount(old(nodes), value)[k]
        invariant forall k :: i <= k < |nodes| ==> nodes[k] == old(nodes)[k]
      {
        if nodes[i].PageCountInput? {
          nodes := nodes[i := PageCountInput(value)];
        }
      }
    }

    /** `populate_header_fields` without the date. */
    method PopulateHeaderFields()
      modifies this
      ensures fields == HeaderUpdate(old(fields), inspectionData) && nodes == old(nodes)
    {
      SetBasicInputs();
      SetSponsorInputs();
    }

    /** Client, address, inspector and the inspector's licence. */
    method SetBasicInputs()
      modifies this
      ensures fields == BasicHeader(old(fields), inspectionData) && nodes == old(nodes)
    {
      var inspection := Get(inspectionData, "inspection", EmptyObject);
      var clientInfo := Get(inspection, "clientInfo", EmptyObject);
      var addressInfo := Get(inspection, "address", EmptyObject);
      var inspectorInfo := Get(inspection, "inspector", EmptyObject);
      SetInput("client", Get(clientInfo, "name", JString("")));
      SetInput("address", Get(addressInfo, "fullAddress", JString("")));
      SetInput("inspector", Get(inspectorInfo, "name", JString("")));
      SetInput("trec1", Get(inspectorInfo, "id", JString("")));
    }

    /** `if id in fields: fields[id] = v` */
    method SetInput(id: string, v: Json)
      modifies this
      ensures fields == SetIfPresent(old(fields), id, v) && nodes == old(nodes)
    {
      if id in fields {
        fields := fields[id := v];
      }
    }

    /** The sponsor's name and licence, when the account is truthy. */
    method SetSponsorInputs()
      modifies this
      ensures fields == SponsorUpdate(old(fields), AccountOf(inspectionData)) && nodes == old(nodes)
    {
      var account := Get(inspectionData, "account", EmptyObject);
      if "sponsor" in fields && Truthy(account) {
        var sponsorName := Get(account, "companyName", JString(""));
        if !Truthy(sponsorName) {
          sponsorName := Get(account, "name", JString(""));
        }
        assert sponsorName == SponsorName(account);
        if Truthy(sponsorName) {
          fields := fields["sponsor" := sponsorName];
        }
      }
      assert fields == if Truthy(account) && Truthy(SponsorName(account)) then SetIfPresent(old(fields), "sponsor", SponsorName(account)) else old(fields);
      if "trec2" in fields && Truthy(account) {
        var sponsorLicense := Get(account, "id", JString(""));
        if Truthy(sponsorLicense) {
          fields := fields["trec2" := sponsorLicense];
        }
      }
    }

    /** `main`: header, sections, empty sections removed, then `save`, which
        updates the page numbers before writing the file. */
    method Run()
      modifies this
      ensures nodes == Finish(PyPopulate(old(nodes), sections))
      ensures fields == HeaderUpdate(old(fields), inspectionData)
    {
      PopulateHeaderFields();
      PopulateAllSections();
      RemoveEmptySections();
      var _ := UpdatePageNumbers();
    }
  }
}
