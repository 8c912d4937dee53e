/**
 * What a TREC item's comments hold once every line item has been processed.
 * `populate_all_sections` keys `processed_items` by `section_code`; the
 * loop is written here once over any keying, so that the as-written key and
 * a key naming the located item itself can be compared.
 */
module Claims {
  import opened Wrappers
  import opened Text
  import opened Inspection
  import opened Fragments
  import opened Form
  import opened Mapping
  import opened Populator

  /** Where a line item lands on a form with landmarks `ls`: the target its
      name maps to and the position of the item found for it; None when the
      name maps to nothing or no item is found. */
  function Landing(ls: seq<Landmark>, li: LineItem, resolve: Resolver): (r: Option<(Target, nat)>)
    ensures r.Some? ==> r.value.1 < |ls| && ls[r.value.1].ItemMark?
  {
    match resolve(li.name)
    case Mapped(t) =>
      (match Locate(ls, t.section, t.code, PyKeywords(t.title), true)
       case Some(j) => Some((t, j))
       case None => None)
    case _ => None
  }

  /** Where each line item lands, as the loop sees it. */
  type Lander = LineItem -> Option<(Target, nat)>

  /** The landing of the source's loop on a form with landmarks `ls`. */
  function LandingOn(ls: seq<Landmark>, resolve: Resolver): Lander {
    li => Landing(ls, li, resolve)
  }

  /** The line item lands on the item at position `j`. */
  predicate LandsOn(land: Lander, li: LineItem, j: nat) {
    land(li).Some? && land(li).value.1 == j
  }

  /** How `processed_items` is keyed, from the target and the located item. */
  type KeyOf = (Target, nat) -> string

  /** The key the source uses: `f"{section_idx}_{item_code}"`. */
  function CodeKey(t: Target, j: nat): string {
    ItemKey(t)
  }

  /** A key naming the located item itself. */
  function PositionKey(t: Target, j: nat): string {
    NatToString(j)
  }

  /** The key a landed line item claims or adds to. */
  function KeyAt(land: Lander, li: LineItem, keyOf: KeyOf): string
    requires land(li).Some?
  {
    keyOf(land(li).value.0, land(li).value.1)
  }

  /** One line item, with `processed_items` keyed by `keyOf`. */
  function ReconcileWith(p: Progress, li: LineItem, land: Lander, keyOf: KeyOf): (q: Progress)
    ensures Landmarks(q.nodes) == Landmarks(p.nodes)
  {
    match land(li)
    case None => p
    case Some(tj) => Claim(p, tj.1, keyOf(tj.0, tj.1), li)
  }

  /** The loop over line items, with `processed_items` keyed by `keyOf`. */
  function ItemsWith(p: Progress, items: seq<LineItem>, land: Lander, keyOf: KeyOf): (q: Progress)
    ensures Landmarks(q.nodes) == Landmarks(p.nodes)
    decreases |items|
  {
    if items == [] then p
    else ReconcileWith(ItemsWith(p, items[..|items| - 1], land, keyOf), items[|items| - 1], land, keyOf)
  }

  /** Keyed by `section_code`, with the landing read on the form's
      landmarks (which the loop never changes), the generic loop is the
      source's loop. */
  lemma {:induction false} PyItemsIsCodeKeyed(p: Progress, items: seq<LineItem>, resolve: Resolver)
    ensures PyItems(p, items, resolve) == ItemsWith(p, items, LandingOn(Landmarks(p.nodes), resolve), CodeKey)
    ensures Landmarks(PyItems(p, items, resolve).nodes) == Landmarks(p.nodes)
    decreases |items|
  {
    if items != [] {
      var init := items[..|items| - 1];
      PyItemsIsCodeKeyed(p, init, resolve);
      ReconcileIsCodeKeyed(PyItems(p, init, resolve), items[|items| - 1], resolve, Landmarks(p.nodes));
    }
  }

  lemma ReconcileIsCodeKeyed(q: Progress, li: LineItem, resolve: Resolver, ls: seq<Landmark>)
    requires Landmarks(q.nodes) == ls
    ensures Reconcile(q, li, resolve(li.name)) == ReconcileWith(q, li, LandingOn(ls, resolve), CodeKey)
  {
  }

  /** The non-empty line items of every section, in report order. */
  function AllItems(sections: seq<Section>): seq<LineItem> {
    if sections == [] then []
    else AllItems(sections[..|sections| - 1]) + NonEmptyItems(sections[|sections| - 1].lineItems)
  }

  /** Processing `a + b` is processing `a`, then `b`. */
  lemma {:induction false} PyItemsAppend(p: Progress, a: seq<LineItem>, b: seq<LineItem>, resolve: Resolver)
    ensures PyItems(p, a + b, resolve) == PyItems(PyItems(p, a, resolve), b, resolve)
    decreases |b|
  {
    if b == [] {
      assert a + b == a;
    } else {
      var init, li := b[..|b| - 1], b[|b| - 1];
      assert (a + b)[..|a + b| - 1] == a + init;
      assert (a + b)[|a + b| - 1] == li;
      PyItemsAppend(p, a, init, resolve);
      assert PyItems(p, a + b, resolve) == Reconcile(PyItems(p, a + init, resolve), li, resolve(li.name));
    }
  }

  /** The two loops of `populate_all_sections` are one loop over the
      non-empty line items of the whole report. */
  lemma {:induction false} PySectionsFlatten(p: Progress, sections: seq<Section>, resolve: Resolver)
    ensures PySections(p, sections, resolve) == PyItems(p, AllItems(sections), resolve)
    decreases |sections|
  {
    if sections != [] {
      var init := sections[..|sections| - 1];
      PySectionsFlatten(p, init, resolve);
      PyItemsAppend(p, AllItems(init), NonEmptyItems(sections[|sections| - 1].lineItems), resolve);
    }
  }

  // ---------------------------------------------------------------------
  // What an item's comments hold

  /** The line items that land on position `j`, in the order they are processed. */
  function Claimants(land: Lander, items: seq<LineItem>, j: nat): seq<LineItem>
    decreases |items|
  {
    if items == [] then []
    else
      var last := items[|items| - 1];
      Claimants(land, items[..|items| - 1], j) + (if LandsOn(land, last, j) then [last] else [])
  }

  /** A line item that lands on an item is one of its claimants. */
  lemma {:induction false} LandingIsClaimant(land: Lander, items: seq<LineItem>, j: nat, m: nat)
    requires m < |items| && LandsOn(land, items[m], j)
    ensures Claimants(land, items, j) != []
    decreases |items|
  {
    var init := items[..|items| - 1];
    var last := items[|items| - 1];
    var tail := if LandsOn(land, last, j) then [last] else [];
    assert Claimants(land, items, j) == Claimants(land, init, j) + tail;
    if m < |init| {
      assert init[m] == items[m];
      LandingIsClaimant(land, init, j, m);
      assert |Claimants(land, items, j)| >= |Claimants(land, init, j)| > 0;
    } else {
      assert tail == [last];
    }
  }

  /** An item with a claimant has some line item landing on it. */
  lemma {:induction false} ClaimantWitness(land: Lander, items: seq<LineItem>, j: nat) returns (m: nat)
    requires Claimants(land, items, j) != []
    ensures m < |items| && LandsOn(land, items[m], j)
    decreases |items|
  {
    var init := items[..|items| - 1];
    if LandsOn(land, items[|items| - 1], j) {
      m := |items| - 1;
    } else {
      m := ClaimantWitness(land, init, j);
      assert init[m] == items[m];
    }
  }

  /** The inline comments of an item after its claimants `cs`, from `base`:
      the first claimant's rendering replaces `base` when it is not empty;
      each later claimant with a non-empty rendering adds the "Additional
      Finding" separator and its rendering, in order. */
  function Accumulated(base: seq<Fragment>, cs: seq<LineItem>): seq<Fragment>
    decreases |cs|
  {
    if cs == [] then base
    else if |cs| == 1 then
      (if Render(cs[0].comments) != [] then Render(cs[0].comments) else base)
    else
      var prev := Accumulated(base, cs[..|cs| - 1]);
      var html := Render(cs[|cs| - 1].comments);
      if html != [] then prev + [AdditionalFinding] + html else prev
  }

  /** Two landed line items share a key exactly when they land on the same
      item. */
  ghost predicate Separates(land: Lander, items: seq<LineItem>, keyOf: KeyOf) {
    forall m, n ::
      (0 <= m < |items| && 0 <= n < |items| && land(items[m]).Some? && land(items[n]).Some?) ==>
      (KeyAt(land, items[m], keyOf) == KeyAt(land, items[n], keyOf) <==> land(items[m]).value.1 == land(items[n]).value.1)
  }

  /** Every landed line item of `a` has its key claimed for the item it
      landed on. */
  ghost predicate KeysClaimed(land: Lander, a: seq<LineItem>, keyOf: KeyOf, claimed: map<string, nat>) {
    forall m :: 0 <= m < |a| && land(a[m]).Some? ==>
      KeyAt(land, a[m], keyOf) in claimed && claimed[KeyAt(land, a[m], keyOf)] == land(a[m]).value.1
  }

  /** Every claimed key came from a landed line item of `a`, for the item it
      landed on. */
  ghost predicate ClaimsFromItems(land: Lander, a: seq<LineItem>, keyOf: KeyOf, claimed: map<string, nat>) {
    forall key :: key in claimed ==>
      exists m :: 0 <= m < |a| && land(a[m]).Some? && KeyAt(land, a[m], keyOf) == key && land(a[m]).value.1 == claimed[key]
  }

  /** Every inline box of `nodes` holds in `current` what the claimants
      among `a` accumulated. */
  ghost predicate BoxesAccumulated(nodes: seq<Node>, land: Lander, a: seq<LineItem>, current: seq<Node>) {
    forall j :: HasInlineBox(nodes, j) ==>
      HasInlineBox(current, j) && ContentAt(current, j) == Accumulated(ContentAt(nodes, j), Claimants(land, a, j))
  }

  /** What holds after the line items `a` from a form `nodes` with nothing
      claimed. */
  ghost predicate Accumulating(nodes: seq<Node>, a: seq<LineItem>, land: Lander, keyOf: KeyOf, q: Progress) {
    Landmarks(q.nodes) == Landmarks(nodes) &&
    KeysClaimed(land, a, keyOf, q.claimed) &&
    ClaimsFromItems(land, a, keyOf, q.claimed) &&
    BoxesAccumulated(nodes, land, a, q.nodes)
  }

  /** Nothing is claimed and nothing accumulated before the first line item. */
  lemma AccumulatingStart(nodes: seq<Node>, land: Lander, keyOf: KeyOf)
    ensures Accumulating(nodes, [], land, keyOf, Progress(nodes, map[]))
  {
  }

  /** The claimants of an item after one more line item. */
  lemma ClaimantsSnoc(land: Lander, a: seq<LineItem>, li: LineItem, j: nat)
    ensures Claimants(land, a + [li], j) == Claimants(land, a, j) + (if LandsOn(land, li, j) then [li] else [])
  {
    assert (a + [li])[..|a + [li]| - 1] == a;
  }

  /** Separation of a list holds for each of its prefixes. */
  lemma SeparatesPrefix(land: Lander, items: seq<LineItem>, keyOf: KeyOf, k: nat)
    requires k <= |items| && Separates(land, items, keyOf)
    ensures Separates(land, items[..k], keyOf)
  {
    var p := items[..k];
    assert forall m :: 0 <= m < |p| ==> p[m] == items[m];
  }

  // Claimed keys

  /** With separation, a line item landing on an item nobody has claimed
      brings a key nobody has claimed. */
  lemma FirstKeyFresh(land: Lander, a: seq<LineItem>, li: LineItem, keyOf: KeyOf, claimed: map<string, nat>)
    requires ClaimsFromItems(land, a, keyOf, claimed)
    requires Separates(land, a + [li], keyOf)
    requires land(li).Some? && Claimants(land, a, land(li).value.1) == []
    ensures KeyAt(land, li, keyOf) !in claimed
  {
    var b := a + [li];
    var k := KeyAt(land, li, keyOf);
    if k in claimed {
      var m :| 0 <= m < |a| && land(a[m]).Some? && KeyAt(land, a[m], keyOf) == k && land(a[m]).value.1 == claimed[k];
      assert b[m] == a[m] && b[|a|] == li;
      LandingIsClaimant(land, a, land(li).value.1, m);
      assert false;
    }
  }

  /** With separation, a line item landing on an item that has a claimant
      brings the key that item was claimed under. */
  lemma LaterKeyFound(land: Lander, a: seq<LineItem>, li: LineItem, keyOf: KeyOf, claimed: map<string, nat>)
    requires KeysClaimed(land, a, keyOf, claimed)
    requires Separates(land, a + [li], keyOf)
    requires land(li).Some? && Claimants(land, a, land(li).value.1) != []
    ensures KeyAt(land, li, keyOf) in claimed && claimed[KeyAt(land, li, keyOf)] == land(li).value.1
  {
    var b := a + [li];
    var w := ClaimantWitness(land, a, land(li).value.1);
    assert b[w] == a[w] && b[|a|] == li;
  }

  lemma KeysClaimedSnoc(land: Lander, a: seq<LineItem>, li: LineItem, keyOf: KeyOf, claimed: map<string, nat>, after: map<string, nat>)
    requires KeysClaimed(land, a, keyOf, claimed)
    requires forall key :: key in claimed ==> key in after && after[key] == claimed[key]
    requires land(li).Some? ==> KeyAt(land, li, keyOf) in after && after[KeyAt(land, li, keyOf)] == land(li).value.1
    ensures KeysClaimed(land, a + [li], keyOf, after)
  {
    var b := a + [li];
    assert forall m :: 0 <= m < |a| ==> b[m] == a[m];
    assert b[|a|] == li;
  }

  lemma ClaimsFromItemsSnoc(land: Lander, a: seq<LineItem>, li: LineItem, keyOf: KeyOf, claimed: map<string, nat>, after: map<string, nat>)
    requires ClaimsFromItems(land, a, keyOf, claimed)
    requires after == claimed || (land(li).Some? && after == claimed[KeyAt(land, li, keyOf) := land(li).value.1])
    ensures ClaimsFromItems(land, a + [li], keyOf, after)
  {
    var b := a + [li];
    forall key | key in after
      ensures exists m :: 0 <= m < |b| && land(b[m]).Some? && KeyAt(land, b[m], keyOf) == key && land(b[m]).value.1 == after[key]
    {
      if land(li).Some? && key == KeyAt(land, li, keyOf) && after != claimed {
        assert b[|a|] == li;
      } else {
        var m :| 0 <= m < |a| && land(a[m]).Some? && KeyAt(land, a[m], keyOf) == key && land(a[m]).value.1 == claimed[key];
        assert b[m] == a[m];
      }
    }
  }

  // Inline boxes

  lemma BoxesMiss(nodes: seq<Node>, land: Lander, a: seq<LineItem>, li: LineItem, current: seq<Node>)
    requires BoxesAccumulated(nodes, land, a, current)
    requires land(li).None?
    ensures BoxesAccumulated(nodes, land, a + [li], current)
  {
    forall j | HasInlineBox(nodes, j)
      ensures Claimants(land, a + [li], j) == Claimants(land, a, j)
    {
      ClaimantsSnoc(land, a, li, j);
    }
  }

  /** The claimant list of item `j` after a line item that lands on `j0`. */
  lemma ClaimantsAfter(land: Lander, a: seq<LineItem>, li: LineItem, j: nat)
    requires land(li).Some?
    ensures land(li).value.1 != j ==> Claimants(land, a + [li], j) == Claimants(land, a, j)
    ensures land(li).value.1 == j ==> Claimants(land, a + [li], j) == Claimants(land, a, j) + [li]
  {
    ClaimantsSnoc(land, a, li, j);
  }

  /** What one more claimant adds to an accumulation. */
  lemma AccumulatedSnoc(base: seq<Fragment>, cs: seq<LineItem>, li: LineItem)
    ensures cs == [] ==> Accumulated(base, cs + [li]) == if Render(li.comments) != [] then Render(li.comments) else base
    ensures cs != [] ==> (Accumulated(base, cs + [li]) ==
      if Render(li.comments) != [] then Accumulated(base, cs) + [AdditionalFinding] + Render(li.comments) else Accumulated(base, cs))
  {
    var ds := cs + [li];
    assert ds[..|ds| - 1] == cs && ds[|ds| - 1] == li;
  }

  /** The first claimant of `j0` sets the box of `j0` and no other. */
  lemma BoxFirstAt(nodes: seq<Node>, land: Lander, a: seq<LineItem>, li: LineItem, current: seq<Node>, j: nat)
    requires HasInlineBox(nodes, j) && HasInlineBox(current, j)
    requires ContentAt(current, j) == Accumulated(ContentAt(nodes, j), Claimants(land, a, j))
    requires land(li).Some? && Claimants(land, a, land(li).value.1) == []
    ensures var r := FirstClaim(current, land(li).value.1, li);
      HasInlineBox(r, j) && ContentAt(r, j) == Accumulated(ContentAt(nodes, j), Claimants(land, a + [li], j))
  {
    ClaimantsAfter(land, a, li, j);
    AccumulatedSnoc(ContentAt(nodes, j), Claimants(land, a, j), li);
  }

  /** A later claimant of `j0` extends the box of `j0` and no other. */
  lemma BoxLaterAt(nodes: seq<Node>, land: Lander, a: seq<LineItem>, li: LineItem, current: seq<Node>, j: nat)
    requires HasInlineBox(nodes, j) && HasInlineBox(current, j)
    requires ContentAt(current, j) == Accumulated(ContentAt(nodes, j), Claimants(land, a, j))
    requires land(li).Some? && Claimants(land, a, land(li).value.1) != []
    ensures var r := LaterClaim(current, land(li).value.1, li);
      HasInlineBox(r, j) && ContentAt(r, j) == Accumulated(ContentAt(nodes, j), Claimants(land, a + [li], j))
  {
    ClaimantsAfter(land, a, li, j);
    AccumulatedSnoc(ContentAt(nodes, j), Claimants(land, a, j), li);
    LaterClaimAppends(current, land(li).value.1, li);
  }

  lemma BoxesFirst(nodes: seq<Node>, land: Lander, a: seq<LineItem>, li: LineItem, current: seq<Node>)
    requires BoxesAccumulated(nodes, land, a, current)
    requires land(li).Some? && Claimants(land, a, land(li).value.1) == []
    ensures BoxesAccumulated(nodes, land, a + [li], FirstClaim(current, land(li).value.1, li))
  {
    forall j | HasInlineBox(nodes, j)
      ensures var r := FirstClaim(current, land(li).value.1, li);
        HasInlineBox(r, j) && ContentAt(r, j) == Accumulated(ContentAt(nodes, j), Claimants(land, a + [li], j))
    {
      BoxFirstAt(nodes, land, a, li, current, j);
    }
  }

  lemma BoxesLater(nodes: seq<Node>, land: Lander, a: seq<LineItem>, li: LineItem, current: seq<Node>)
    requires BoxesAccumulated(nodes, land, a, current)
    requires land(li).Some? && Claimants(land, a, land(li).value.1) != []
    ensures BoxesAccumulated(nodes, land, a + [li], LaterClaim(current, land(li).value.1, li))
  {
    forall j | HasInlineBox(nodes, j)
      ensures var r := LaterClaim(current, land(li).value.1, li);
        HasInlineBox(r, j) && ContentAt(r, j) == Accumulated(ContentAt(nodes, j), Claimants(land, a + [li], j))
    {
      BoxLaterAt(nodes, land, a, li, current, j);
    }
  }

  /** One line item keeps the invariant, whether it lands nowhere, first or
      later. */
  lemma AccumulatingStep(nodes: seq<Node>, a: seq<LineItem>, li: LineItem, land: Lander, keyOf: KeyOf, q: Progress)
    requires Accumulating(nodes, a, land, keyOf, q)
    requires Separates(land, a + [li], keyOf)
    ensures Accumulating(nodes, a + [li], land, keyOf, ReconcileWith(q, li, land, keyOf))
  {
    var q' := ReconcileWith(q, li, land, keyOf);
    if land(li).None? {
      KeysClaimedSnoc(land, a, li, keyOf, q.claimed, q.claimed);
      ClaimsFromItemsSnoc(land, a, li, keyOf, q.claimed, q.claimed);
      BoxesMiss(nodes, land, a, li, q.nodes);
    } else if Claimants(land, a, land(li).value.1) == [] {
      FirstKeyFresh(land, a, li, keyOf, q.claimed);
      assert q' == Progress(FirstClaim(q.nodes, land(li).value.1, li), q.claimed[KeyAt(land, li, keyOf) := land(li).value.1]);
      KeysClaimedSnoc(land, a, li, keyOf, q.claimed, q'.claimed);
      ClaimsFromItemsSnoc(land, a, li, keyOf, q.claimed, q'.claimed);
      BoxesFirst(nodes, land, a, li, q.nodes);
    } else {
      LaterKeyFound(land, a, li, keyOf, q.claimed);
      assert q' == q.(nodes := LaterClaim(q.nodes, land(li).value.1, li));
      KeysClaimedSnoc(land, a, li, keyOf, q.claimed, q'.claimed);
      ClaimsFromItemsSnoc(land, a, li, keyOf, q.claimed, q'.claimed);
      BoxesLater(nodes, land, a, li, q.nodes);
    }
  }

  /** The loop keeps the invariant over any list of line items whose keys
      separate the items they land on. */
  lemma {:induction false} ItemsAccumulate(nodes: seq<Node>, items: seq<LineItem>, land: Lander, keyOf: KeyOf)
    requires Separates(land, items, keyOf)
    ensures Accumulating(nodes, items, land, keyOf, ItemsWith(Progress(nodes, map[]), items, land, keyOf))
    decreases |items|
  {
    if items == [] {
      AccumulatingStart(nodes, land, keyOf);
    } else {
      var init := items[..|items| - 1];
      var li := items[|items| - 1];
      SeparatesPrefix(land, items, keyOf, |items| - 1);
      ItemsAccumulate(nodes, init, land, keyOf);
      assert init + [li] == items;
      AccumulatingStep(nodes, init, li, land, keyOf, ItemsWith(Progress(nodes, map[]), init, land, keyOf));
    }
  }

  // ---------------------------------------------------------------------
  // As written: keyed by section and code

  /** When no two line items that land on one item carry different
      `section_code` keys (and no two keys land on different items), every
      inline box ends up with the rendering of its first claimant, then a
      separator and the rendering of each later claimant with comments, in
      report order. */
  lemma PyPopulateAccumulates(nodes: seq<Node>, sections: seq<Section>, j: nat)
    requires Separates(LandingOn(Landmarks(nodes), PyResolve), AllItems(sections), CodeKey)
    requires HasInlineBox(nodes, j)
    ensures HasInlineBox(PyPopulate(nodes, sections), j)
    ensures ContentAt(PyPopulate(nodes, sections), j) ==
      Accumulated(ContentAt(nodes, j), Claimants(LandingOn(Landmarks(nodes), PyResolve), AllItems(sections), j))
  {
    var start := Progress(nodes, map[]);
    PySectionsFlatten(start, sections, PyResolve);
    PyItemsIsCodeKeyed(start, AllItems(sections), PyResolve);
    ItemsAccumulate(nodes, AllItems(sections), LandingOn(Landmarks(nodes), PyResolve), CodeKey);
  }

  /** The loop over two line items is two steps. */
  lemma ItemsWithPair(p: Progress, first: LineItem, second: LineItem, land: Lander, keyOf: KeyOf)
    ensures ItemsWith(p, [first, second], land, keyOf) == ReconcileWith(ReconcileWith(p, first, land, keyOf), second, land, keyOf)
  {
    var both := [first, second];
    assert both[..1] == [first] && [first][..0] == [];
    assert ItemsWith(p, [first], land, keyOf) == ReconcileWith(p, first, land, keyOf);
  }

  /** Two claimants with rendered comments accumulate into the first
      rendering, a separator and the second rendering. */
  lemma AccumulatedPair(base: seq<Fragment>, land: Lander, first: LineItem, second: LineItem, j: nat)
    requires LandsOn(land, first, j) && LandsOn(land, second, j)
    requires Render(first.comments) != [] && Render(second.comments) != []
    ensures Accumulated(base, Claimants(land, [first, second], j)) == Render(first.comments) + [AdditionalFinding] + Render(second.comments)
  {
    ClaimantsAfter(land, [], first, j);
    ClaimantsAfter(land, [first], second, j);
    assert [] + [first] == [first] && [first] + [second] == [first, second];
    AccumulatedSnoc(base, [], first);
    AccumulatedSnoc(base, [first], second);
  }

  /** Two line items that land on the same item under different keys both
      claim it first: the second one's comments replace the first one's
      instead of following them. */
  lemma OverwriteUnderTwoKeys(nodes: seq<Node>, land: Lander, keyOf: KeyOf, first: LineItem, second: LineItem)
    requires land(first).Some? && LandsOn(land, second, land(first).value.1)
    requires KeyAt(land, first, keyOf) != KeyAt(land, second, keyOf)
    requires HasInlineBox(nodes, land(first).value.1)
    requires Render(first.comments) != [] && Render(second.comments) != []
    ensures var j := land(first).value.1;
      var r := ItemsWith(Progress(nodes, map[]), [first, second], land, keyOf).nodes;
      HasInlineBox(r, j) && ContentAt(r, j) == Render(second.comments)
    ensures var j := land(first).value.1;
      Accumulated(ContentAt(nodes, j), Claimants(land, [first, second], j)) ==
      Render(first.comments) + [AdditionalFinding] + Render(second.comments)
  {
    var j := land(first).value.1;
    ItemsWithPair(Progress(nodes, map[]), first, second, land, keyOf);
    var p1 := ReconcileWith(Progress(nodes, map[]), first, land, keyOf);
    assert p1 == Progress(FirstClaim(nodes, j, first), map[KeyAt(land, first, keyOf) := j]);
    assert KeyAt(land, second, keyOf) !in p1.claimed;
    var p2 := ReconcileWith(p1, second, land, keyOf);
    assert p2.nodes == FirstClaim(p1.nodes, j, second);
    AccumulatedPair(ContentAt(nodes, j), land, first, second, j);
  }

  /** On such a form, a name resolved to section 0 lands on item 1. */
  lemma OneItemFormLands(nodes: seq<Node>, li: LineItem, resolve: Resolver)
    requires OneItemForm(nodes) && resolve(li.name).Mapped? && resolve(li.name).target.section == 0
    ensures LandingOn(Landmarks(nodes), resolve)(li) == Some((resolve(li.name).target, 1))
  {
    var t := resolve(li.name).target;
    OneItemFormLocates(nodes, t.code, PyKeywords(t.title), true);
  }

  /** A section of two line items with comments contributes both. */
  lemma AllItemsOfPair(name: string, first: LineItem, second: LineItem)
    requires first.comments != [] && second.comments != []
    ensures AllItems([Section(name, [first, second])]) == [first, second]
  {
    var sections := [Section(name, [first, second])];
    assert sections[..0] == [];
    assert NonEmptyItems([first, second]) == [first, second];
  }

  /** For any resolver that sends "Decks and Stairways" to item K and
      "Exterior Cladding and Trim" to item E of section 0, the source's loop
      leaves only the second rendering in the only item. */
  lemma OverwriteExampleWith(nodes: seq<Node>, name: string, first: LineItem, second: LineItem, resolve: Resolver)
    requires OneItemForm(nodes) && HasInlineBox(nodes, 1)
    requires first.name == "Decks and Stairways" && second.name == "Exterior Cladding and Trim"
    requires resolve(first.name) == Mapped(FirstSectionTarget(first.name))
    requires resolve(second.name) == Mapped(FirstSectionTarget(second.name))
    requires Render(first.comments) != [] && Render(second.comments) != []
    ensures var r := PySections(Progress(nodes, map[]), [Section(name, [first, second])], resolve).nodes;
      HasInlineBox(r, 1) && ContentAt(r, 1) == Render(second.comments)
  {
    var start := Progress(nodes, map[]);
    RenderEmptiness(first.comments);
    RenderEmptiness(second.comments);
    AllItemsOfPair(name, first, second);
    OneItemFormLands(nodes, first, resolve);
    OneItemFormLands(nodes, second, resolve);
    FirstSectionKeysDiffer();
    PySectionsFlatten(start, [Section(name, [first, second])], resolve);
    PyItemsIsCodeKeyed(start, [first, second], resolve);
    OverwriteUnderTwoKeys(nodes, LandingOn(Landmarks(nodes), resolve), CodeKey, first, second);
  }

  /** Keyed by the located item, the same report keeps both renderings. */
  lemma KeptByItemWith(nodes: seq<Node>, name: string, first: LineItem, second: LineItem, resolve: Resolver)
    requires OneItemForm(nodes) && HasInlineBox(nodes, 1)
    requires resolve(first.name).Mapped? && resolve(first.name).target.section == 0
    requires resolve(second.name).Mapped? && resolve(second.name).target.section == 0
    requires Render(first.comments) != [] && Render(second.comments) != []
    ensures var land := LandingOn(Landmarks(nodes), resolve);
      var r := ItemsWith(Progress(nodes, map[]), AllItems([Section(name, [first, second])]), land, PositionKey).nodes;
      HasInlineBox(r, 1) && ContentAt(r, 1) == Render(first.comments) + [AdditionalFinding] + Render(second.comments)
  {
    var land := LandingOn(Landmarks(nodes), resolve);
    RenderEmptiness(first.comments);
    RenderEmptiness(second.comments);
    AllItemsOfPair(name, first, second);
    OneItemFormLands(nodes, first, resolve);
    OneItemFormLands(nodes, second, resolve);
    PositionKeySeparates(land, [first, second]);
    ItemsAccumulate(nodes, [first, second], land, PositionKey);
    AccumulatedPair(ContentAt(nodes, 1), land, first, second, 1);
  }

  /** The overwrite on a concrete report: one section holding a "Decks and
      Stairways" line item and then an "Exterior Cladding and Trim" line
      item, each with comments to show, on a form whose first section has
      one item. The source leaves only the second rendering in the item's
      box; keyed by the located item, both are kept, the second behind the
      separator. */
  lemma PyOverwriteExample(nodes: seq<Node>, name: string, first: LineItem, second: LineItem)
    requires OneItemForm(nodes) && HasInlineBox(nodes, 1)
    requires first.name == "Decks and Stairways" && second.name == "Exterior Cladding and Trim"
    requires Render(first.comments) != [] && Render(second.comments) != []
    ensures var sections := [Section(name, [first, second])];
      HasInlineBox(PyPopulate(nodes, sections), 1) &&
      ContentAt(PyPopulate(nodes, sections), 1) == Render(second.comments)
    ensures var sections := [Section(name, [first, second])];
      HasInlineBox(PyPopulateByItem(nodes, sections), 1) &&
      ContentAt(PyPopulateByItem(nodes, sections), 1) == Render(first.comments) + [AdditionalFinding] + Render(second.comments)
  {
    PyFirstSectionNamesMapped(first.name);
    PyFirstSectionNamesMapped(second.name);
    OverwriteExampleWith(nodes, name, first, second, PyResolve);
    KeptByItemWith(nodes, name, first, second, PyResolve);
  }

  // ---------------------------------------------------------------------
  // Corrected: keyed by the located item

  /** Keys naming the located item separate any list of line items. */
  lemma PositionKeySeparates(land: Lander, items: seq<LineItem>)
    ensures Separates(land, items, PositionKey)
  {
    forall m, n | 0 <= m < |items| && 0 <= n < |items| && land(items[m]).Some? && land(items[n]).Some?
      ensures KeyAt(land, items[m], PositionKey) == KeyAt(land, items[n], PositionKey) <==> land(items[m]).value.1 == land(items[n]).value.1
    {
      NatToStringRoundTrip(land(items[m]).value.1);
      NatToStringRoundTrip(land(items[n]).value.1);
    }
  }

  /** `populate_all_sections` with `processed_items` keyed by the located
      item: the landmarks of the form stay as they were. */
  function PyPopulateByItem(nodes: seq<Node>, sections: seq<Section>): (r: seq<Node>)
    ensures Landmarks(r) == Landmarks(nodes)
  {
    ItemsWith(Progress(nodes, map[]), AllItems(sections), LandingOn(Landmarks(nodes), PyResolve), PositionKey).nodes
  }

  /** Keyed by the located item, every inline box accumulates all of its
      claimants, whatever their targets. */
  lemma PyPopulateByItemAccumulates(nodes: seq<Node>, sections: seq<Section>, j: nat)
    requires HasInlineBox(nodes, j)
    ensures HasInlineBox(PyPopulateByItem(nodes, sections), j)
    ensures ContentAt(PyPopulateByItem(nodes, sections), j) ==
      Accumulated(ContentAt(nodes, j), Claimants(LandingOn(Landmarks(nodes), PyResolve), AllItems(sections), j))
  {
    var land := LandingOn(Landmarks(nodes), PyResolve);
    PositionKeySeparates(land, AllItems(sections));
    ItemsAccumulate(nodes, AllItems(sections), land, PositionKey);
  }
}
