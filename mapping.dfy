/**
 * `LINE_ITEM_MAPPING` of both populators (inspection line-item name to TREC
 * item) and how each resolves a name: dictionary lookup, then the word-overlap
 * fallback.
 */
module Mapping {
  import opened Wrappers
  import opened Text

  /** A TREC item: its code letter, the position of its section among the
      template's section titles, and its title. */
  datatype Target = Target(code: string, section: nat, title: string)

  /** The Python table, in insertion order; `None` marks a name to skip. */
  const PyTable: seq<(string, Option<Target>)> := PyRows0 + PyRows1 + PyRows2 + PyRows3 + PyRows4 + PyRows5 + PyRows6 + PyRows7

  /** Entries at lines 87-94. */
  const PyRows0: seq<(string, Option<Target>)> := [
      ("Decks and Stairways", Some(Target("K", 0, "Porches, Balconies, Decks, and Carports"))),
      ("Ground-Level Entry Structures", Some(Target("K", 0, "Porches, Balconies, Decks, and Carports"))),
      ("Exterior Cladding and Trim", Some(Target("E", 0, "Walls (Interior and Exterior)"))),
      ("Exterior Wall Cladding and Finishes", Some(Target("E", 0, "Walls (Interior and Exterior)"))),
      ("Window Systems and Sealing", Some(Target("H", 0, "Windows"))),
      ("Window Systems and Flashing", Some(Target("H", 0, "Windows"))),
      ("Chimney Structures", Some(Target("J", 0, "Fireplaces and Chimneys"))),
      ("Chimney Systems", Some(Target("J", 0, "Fireplaces and Chimneys")))
    ]

  /** Entries at lines 95-102. */
  const PyRows1: seq<(string, Option<Target>)> := [
      ("Eaves and Soffit Components", Some(Target("K", 0, "Porches, Balconies, Decks, and Carports"))),
      ("Paved Surfaces and Walkways", Some(Target("K", 0, "Porches, Balconies, Decks, and Carports"))),
      ("Perimeter Fencing and Gates", Some(Target("L", 0, "Other"))),
      ("Exterior Elevated Structures", Some(Target("K", 0, "Porches, Balconies, Decks, and Carports"))),
      ("Exterior Entryways", Some(Target("G", 0, "Doors (Interior and Exterior)"))),
      ("Site Grading and Drainage", Some(Target("B", 0, "Grading and Drainage"))),
      ("Roof Covering Materials", Some(Target("C", 0, "Roof Covering Materials"))),
      ("Roof Structures and Attics", Some(Target("D", 0, "Roof Structures and Attics")))
    ]

  /** Entries at lines 103-112. */
  const PyRows2: seq<(string, Option<Target>)> := [
      ("Overall Roof Condition", Some(Target("C", 0, "Roof Covering Materials"))),
      ("Roofing Material Integrity", Some(Target("C", 0, "Roof Covering Materials"))),
      ("Flashing System Integrity", Some(Target("C", 0, "Roof Covering Materials"))),
      ("Roof Flashing Components", Some(Target("C", 0, "Roof Covering Materials"))),
      ("Roof Penetrations and Ventilation", Some(Target("D", 0, "Roof Structures and Attics"))),
      ("Exterior Drainage Systems", Some(Target("B", 0, "Grading and Drainage"))),
      ("Rainwater Management Systems", Some(Target("B", 0, "Grading and Drainage"))),
      ("Outdoor HVAC Unit", Some(Target("B", 2, "Cooling Equipment")))
    ]

  /** Entries at lines 113-124. */
  const PyRows3: seq<(string, Option<Target>)> := [
      ("Outdoor Air Conditioning Unit", Some(Target("B", 2, "Cooling Equipment"))),
      ("Exterior Water Taps and Drainage Access", Some(Target("A", 3, "Plumbing Supply, Distribution Systems and Fixtures"))),
      ("Bathtub and Shower Systems", Some(Target("A", 3, "Plumbing Supply, Distribution Systems and Fixtures"))),
      ("Food Waste Disposer", Some(Target("B", 4, "Food Waste Disposers"))),
      ("Integrated Appliances", Some(Target("I", 4, "Other"))),
      ("Kitchen Ventilation", Some(Target("C", 4, "Range Hood and Exhaust Systems"))),
      ("Microwave Oven", Some(Target("E", 4, "Microwave Ovens"))),
      ("Dishwashing Unit", Some(Target("A", 4, "Dishwashers")))
    ]

  /** Entries at lines 125-136. */
  const PyRows4: seq<(string, Option<Target>)> := [
      ("Laundry Appliances", Some(Target("H", 4, "Dryer Exhaust Systems"))),
      ("Wine Refrigerator", Some(Target("I", 4, "Other"))),
      ("Refrigeration Unit", Some(Target("I", 4, "Other"))),
      ("Electrical Receptacles, Switches, and Signaling Devices", Some(Target("B", 1, "Branch Circuits, Connected Devices, and Fixtures"))),
      ("Electrical Conductors and Wiring", Some(Target("B", 1, "Branch Circuits, Connected Devices, and Fixtures"))),
      ("Interior Door Systems", Some(Target("G", 0, "Doors (Interior and Exterior)"))),
      ("Window Assemblies", Some(Target("H", 0, "Windows"))),
      ("Window Systems", Some(Target("H", 0, "Windows")))
    ]

  /** Entries at lines 137-144. */
  const PyRows5: seq<(string, Option<Target>)> := [
      ("Interior Wall Systems", Some(Target("E", 0, "Walls (Interior and Exterior)"))),
      ("Interior Flooring Surfaces", Some(Target("F", 0, "Ceilings and Floors"))),
      ("Ceiling Surfaces", Some(Target("F", 0, "Ceilings and Floors"))),
      ("Floor Coverings", Some(Target("F", 0, "Ceilings and Floors"))),
      ("Exterior Door Systems", Some(Target("G", 0, "Doors (Interior and Exterior)"))),
      ("Subflooring", Some(Target("F", 0, "Ceilings and Floors"))),
      ("Main Structural Supports", Some(Target("A", 0, "Foundations"))),
      ("Floor Joist System", Some(Target("F", 0, "Ceilings and Floors")))
    ]

  /** Entries at lines 145-156. */
  const PyRows6: seq<(string, Option<Target>)> := [
      ("General Structural Information", Some(Target("A", 0, "Foundations"))),
      ("Substructure Entry", Some(Target("A", 0, "Foundations"))),
      ("Outdoor Living Area Covers", Some(Target("K", 0, "Porches, Balconies, Decks, and Carports"))),
      ("Exterior Plantings", Some(Target("L", 0, "Other"))),
      ("Landscape Retaining Structures", Some(Target("B", 0, "Grading and Drainage"))),
      ("Indoor HVAC Unit", Some(Target("A", 2, "Heating Equipment"))),
      ("Crawlspace Assessment", Some(Target("L", 0, "Other"))),
      ("Interior Cabinetry and Countertops", Some(Target("L", 0, "Other")))
    ]

  /** Entries at lines 157-162. */
  const PyRows7: seq<(string, Option<Target>)> := [
      ("Interior Passageways", Some(Target("L", 0, "Other"))),
      ("Report Context", None),
      ("General Information", None),
      ("Site and Property Context", Some(Target("B", 0, "Grading and Drainage")))
    ]

  /** The JavaScript table, in insertion order. */
  const JsTable: seq<(string, Target)> := JsRows0 + JsRows1 + JsRows2 + JsRows3 + JsRows4 + JsRows5

  /** Entries at lines 5-12. */
  const JsRows0: seq<(string, Target)> := [
      ("Decks and Stairways", Target("K", 0, "Porches, Balconies, Decks, and Carports")),
      ("Ground-Level Entry Structures", Target("K", 0, "Porches, Balconies, Decks, and Carports")),
      ("Exterior Cladding and Trim", Target("E", 0, "Walls (Interior and Exterior)")),
      ("Exterior Wall Cladding and Finishes", Target("E", 0, "Walls (Interior and Exterior)")),
      ("Window Systems and Sealing", Target("H", 0, "Windows")),
      ("Window Systems and Flashing", Target("H", 0, "Windows")),
      ("Chimney Structures", Target("J", 0, "Fireplaces and Chimneys")),
      ("Chimney Systems", Target("J", 0, "Fireplaces and Chimneys"))
    ]

  /** Entries at lines 13-20. */
  const JsRows1: seq<(string, Target)> := [
      ("Roof Covering Materials", Target("C", 0, "Roof Covering Materials")),
      ("Roof Structures and Attics", Target("D", 0, "Roof Structures and Attics")),
      ("Grading and Drainage", Target("B", 0, "Grading and Drainage")),
      ("Outdoor HVAC Unit", Target("B", 2, "Cooling Equipment")),
      ("Outdoor Air Conditioning Unit", Target("B", 2, "Cooling Equipment")),
      ("Exterior Water Taps and Drainage Access", Target("A", 3, "Plumbing Supply, Distribution Systems and Fixtures")),
      ("Bathtub and Shower Systems", Target("A", 3, "Plumbing Supply, Distribution Systems and Fixtures")),
      ("Food Waste Disposer", Target("B", 4, "Food Waste Disposers"))
    ]

  /** Entries at lines 21-28. */
  const JsRows2: seq<(string, Target)> := [
      ("Integrated Appliances", Target("I", 4, "Other")),
      ("Kitchen Ventilation", Target("C", 4, "Range Hood and Exhaust Systems")),
      ("Microwave Oven", Target("E", 4, "Microwave Ovens")),
      ("Dishwashing Unit", Target("A", 4, "Dishwashers")),
      ("Laundry Appliances", Target("H", 4, "Dryer Exhaust Systems")),
      ("Wine Refrigerator", Target("I", 4, "Other")),
      ("Refrigeration Unit", Target("I", 4, "Other")),
      ("Electrical Receptacles, Switches, and Signaling Devices", Target("B", 1, "Branch Circuits, Connected Devices, and Fixtures"))
    ]

  /** Entries at lines 29-36. */
  const JsRows3: seq<(string, Target)> := [
      ("Electrical Conductors and Wiring", Target("B", 1, "Branch Circuits, Connected Devices, and Fixtures")),
      ("Interior Door Systems", Target("G", 0, "Doors (Interior and Exterior)")),
      ("Window Assemblies", Target("H", 0, "Windows")),
      ("Window Systems", Target("H", 0, "Windows")),
      ("Interior Wall Systems", Target("E", 0, "Walls (Interior and Exterior)")),
      ("Interior Flooring Surfaces", Target("F", 0, "Ceilings and Floors")),
      ("Ceiling Surfaces", Target("F", 0, "Ceilings and Floors")),
      ("Floor Coverings", Target("F", 0, "Ceilings and Floors"))
    ]

  /** Entries at lines 37-44. */
  const JsRows4: seq<(string, Target)> := [
      ("Exterior Door Systems", Target("G", 0, "Doors (Interior and Exterior)")),
      ("Subflooring", Target("F", 0, "Ceilings and Floors")),
      ("Main Structural Supports", Target("A", 0, "Foundations")),
      ("Floor Joist System", Target("F", 0, "Ceilings and Floors")),
      ("General Structural Information", Target("A", 0, "Foundations")),
      ("Substructure Entry", Target("A", 0, "Foundations")),
      ("Outdoor Living Area Covers", Target("K", 0, "Porches, Balconies, Decks, and Carports")),
      ("Site Grading and Drainage", Target("B", 0, "Grading and Drainage"))
    ]

  /** Entries at lines 45-49. */
  const JsRows5: seq<(string, Target)> := [
      ("Overall Roof Condition", Target("C", 0, "Roof Covering Materials")),
      ("Roofing Material Integrity", Target("C", 0, "Roof Covering Materials")),
      ("Flashing System Integrity", Target("C", 0, "Roof Covering Materials")),
      ("Indoor HVAC Unit", Target("A", 2, "Heating Equipment")),
      ("Site and Property Context", Target("B", 0, "Grading and Drainage"))
    ]

  /** A target names an item of the form: one letter from A to L, in one of
      its six sections. */
  predicate IsItemTarget(t: Target) {
    |t.code| == 1 && 'A' <= t.code[0] <= 'L' && t.section < 6
  }

  /** The names a Python entry maps to None: the two informational ones. */
  predicate IsInformational(name: string) {
    name == "Report Context" || name == "General Information"
  }

  /** Every entry of Python rows maps to an item, except the informational
      names, which map to None. */
  predicate PyRowsShaped(rows: seq<(string, Option<Target>)>) {
    forall i :: 0 <= i < |rows| ==>
      (rows[i].1.None? <==> IsInformational(rows[i].0)) &&
      (rows[i].1.Some? ==> IsItemTarget(rows[i].1.value))
  }

  /** Every entry of JavaScript rows maps to an item. */
  predicate JsRowsShaped(rows: seq<(string, Target)>) {
    forall i :: 0 <= i < |rows| ==> IsItemTarget(rows[i].1)
  }

  lemma PyRowsShapedAppend(a: seq<(string, Option<Target>)>, b: seq<(string, Option<Target>)>)
    requires PyRowsShaped(a) && PyRowsShaped(b)
    ensures PyRowsShaped(a + b)
  {
    forall i | |a| <= i < |a + b| ensures (a + b)[i] == b[i - |a|] {}
  }

  lemma JsRowsShapedAppend(a: seq<(string, Target)>, b: seq<(string, Target)>)
    requires JsRowsShaped(a) && JsRowsShaped(b)
    ensures JsRowsShaped(a + b)
  {
    forall i | |a| <= i < |a + b| ensures (a + b)[i] == b[i - |a|] {}
  }

  lemma PyRowsHeadShaped()
    ensures PyRowsShaped(PyRows0) && PyRowsShaped(PyRows1) && PyRowsShaped(PyRows2) && PyRowsShaped(PyRows3)
  {
    assert PyRowsShaped(PyRows0);
    assert PyRowsShaped(PyRows1);
    assert PyRowsShaped(PyRows2);
  }

  lemma PyRowsTailShaped()
    ensures PyRowsShaped(PyRows4) && PyRowsShaped(PyRows5) && PyRowsShaped(PyRows6) && PyRowsShaped(PyRows7)
  {
    assert PyRowsShaped(PyRows4);
    assert PyRowsShaped(PyRows5);
    assert PyRowsShaped(PyRows6);
  }

  lemma JsRowsHeadShaped()
    ensures JsRowsShaped(JsRows0) && JsRowsShaped(JsRows1) && JsRowsShaped(JsRows2)
  {
    assert JsRowsShaped(JsRows0);
    assert JsRowsShaped(JsRows1);
  }

  lemma JsRowsTailShaped()
    ensures JsRowsShaped(JsRows3) && JsRowsShaped(JsRows4) && JsRowsShaped(JsRows5)
  {
    assert JsRowsShaped(JsRows3);
    assert JsRowsShaped(JsRows4);
  }

  /** `LINE_ITEM_MAPPING` in Python: 60 entries, each mapping to an item of the
      form, except "Report Context" and "General Information", mapped to None. */
  lemma PyTableShape()
    ensures |PyTable| == 60
    ensures forall i :: 0 <= i < |PyTable| ==> (PyTable[i].1.None? <==> IsInformational(PyTable[i].0))
    ensures forall i :: 0 <= i < |PyTable| && PyTable[i].1.Some? ==> IsItemTarget(PyTable[i].1.value)
  {
    PyRowsHeadShaped();
    PyRowsTailShaped();
    PyRowsShapedAppend(PyRows0, PyRows1);
    PyRowsShapedAppend(PyRows0 + PyRows1, PyRows2);
    PyRowsShapedAppend(PyRows0 + PyRows1 + PyRows2, PyRows3);
    PyRowsShapedAppend(PyRows0 + PyRows1 + PyRows2 + PyRows3, PyRows4);
    PyRowsShapedAppend(PyRows0 + PyRows1 + PyRows2 + PyRows3 + PyRows4, PyRows5);
    PyRowsShapedAppend(PyRows0 + PyRows1 + PyRows2 + PyRows3 + PyRows4 + PyRows5, PyRows6);
    PyRowsShapedAppend(PyRows0 + PyRows1 + PyRows2 + PyRows3 + PyRows4 + PyRows5 + PyRows6, PyRows7);
  }

  /** `LINE_ITEM_MAPPING` in the browser: 45 entries, each mapping to an item
      of the form. */
  lemma JsTableShape()
    ensures |JsTable| == 45
    ensures forall i :: 0 <= i < |JsTable| ==> IsItemTarget(JsTable[i].1)
  {
    JsRowsHeadShaped();
    JsRowsTailShaped();
    JsRowsShapedAppend(JsRows0, JsRows1);
    JsRowsShapedAppend(JsRows0 + JsRows1, JsRows2);
    JsRowsShapedAppend(JsRows0 + JsRows1 + JsRows2, JsRows3);
    JsRowsShapedAppend(JsRows0 + JsRows1 + JsRows2 + JsRows3, JsRows4);
    JsRowsShapedAppend(JsRows0 + JsRows1 + JsRows2 + JsRows3 + JsRows4, JsRows5);
  }

  /** Entry `i` is the last one named `name`. */
  predicate LastNamed<V>(table: seq<(string, V)>, name: string, i: int) {
    0 <= i < |table| && table[i].0 == name && forall m :: i < m < |table| ==> table[m].0 != name
  }

  /** The value a dictionary display binds to `name`: a later entry with the
      same name overrides an earlier one, in Python and JavaScript alike. */
  function Lookup<V>(table: seq<(string, V)>, name: string): (r: Option<V>)
    ensures r.None? <==> forall i :: 0 <= i < |table| ==> table[i].0 != name
    ensures r.Some? ==> exists i :: LastNamed(table, name, i) && table[i].1 == r.value
  {
    if table == [] then None
    else if table[|table| - 1].0 == name then Some(table[|table| - 1].1)
    else
      var init := table[..|table| - 1];
      var r := Lookup(init, name);
      assert forall i :: 0 <= i < |init| ==> init[i] == table[i];
      assert r.Some? ==> exists i :: LastNamed(table, name, i) && table[i].1 == r.value by {
        if r.Some? {
          var i :| LastNamed(init, name, i) && init[i].1 == r.value;
          assert LastNamed(table, name, i);
        }
      }
      r
  }

  /** The first of two answers that found something. */
  function OrElse<V>(a: Option<V>, b: Option<V>): Option<V> {
    if a.Some? then a else b
  }

  /** Looking a name up in `a + b` looks in `b` first. */
  lemma {:induction false} LookupAppend<V>(a: seq<(string, V)>, b: seq<(string, V)>, name: string)
    ensures Lookup(a + b, name) == OrElse(Lookup(b, name), Lookup(a, name))
  {
    if b == [] {
      assert a + b == a;
    } else {
      assert (a + b)[|a + b| - 1] == b[|b| - 1];
      assert (a + b)[..|a + b| - 1] == a + b[..|b| - 1];
      LookupAppend(a, b[..|b| - 1], name);
    }
  }

  /** A name found in no block of the Python table is not in the table. */
  lemma PyAbsent(name: string)
    requires Lookup(PyRows0, name).None? && Lookup(PyRows1, name).None? && Lookup(PyRows2, name).None? && Lookup(PyRows3, name).None?
    requires Lookup(PyRows4, name).None? && Lookup(PyRows5, name).None? && Lookup(PyRows6, name).None? && Lookup(PyRows7, name).None?
    ensures Lookup(PyTable, name).None?
  {
    LookupAppend(PyRows0, PyRows1, name);
    LookupAppend(PyRows0 + PyRows1, PyRows2, name);
    LookupAppend(PyRows0 + PyRows1 + PyRows2, PyRows3, name);
    LookupAppend(PyRows0 + PyRows1 + PyRows2 + PyRows3, PyRows4, name);
    LookupAppend(PyRows0 + PyRows1 + PyRows2 + PyRows3 + PyRows4, PyRows5, name);
    LookupAppend(PyRows0 + PyRows1 + PyRows2 + PyRows3 + PyRows4 + PyRows5, PyRows6, name);
    LookupAppend(PyRows0 + PyRows1 + PyRows2 + PyRows3 + PyRows4 + PyRows5 + PyRows6, PyRows7, name);
  }

  /** A name found in no block of the JavaScript table is not in the table. */
  lemma JsAbsent(name: string)
    requires Lookup(JsRows0, name).None? && Lookup(JsRows1, name).None? && Lookup(JsRows2, name).None?
    requires Lookup(JsRows3, name).None? && Lookup(JsRows4, name).None? && Lookup(JsRows5, name).None?
    ensures Lookup(JsTable, name).None?
  {
    LookupAppend(JsRows0, JsRows1, name);
    LookupAppend(JsRows0 + JsRows1, JsRows2, name);
    LookupAppend(JsRows0 + JsRows1 + JsRows2, JsRows3, name);
    LookupAppend(JsRows0 + JsRows1 + JsRows2 + JsRows3, JsRows4, name);
    LookupAppend(JsRows0 + JsRows1 + JsRows2 + JsRows3 + JsRows4, JsRows5, name);
  }

  // ---------------------------------------------------------------------
  // Python

  /** `LINE_ITEM_MAPPING.get(name)`: None both for a name the table lacks and
      for one it maps to None. */
  function PyGet(name: string): Option<Target> {
    var stored: Option<Option<Target>> := Lookup(PyTable, name);
    match stored
    case Some(Some(t)) => Some(t)
    case _ => None
  }

  /** The lower-cased words of `s` (`set(s.lower().split())`). */
  function WordSet(s: string): set<string> {
    set w | w in Words(Lower(s))
  }

  /** Two names share at least two words, without regard to case. */
  predicate SharesTwoWords(a: string, b: string) {
    |WordSet(a) * WordSet(b)| >= 2
  }

  datatype FuzzyOutcome = Hit(target: Target) | Miss | UnpackError

  /** Entry `e` neither is None nor shares two words with `name`: the loop passes over it. */
  predicate PassedOver(e: (string, Option<Target>), name: string) {
    e.1.Some? && !SharesTwoWords(e.0, name)
  }

  /** No entry before position `i` is None or shares two words with `name`. */
  predicate ClearBefore(table: seq<(string, Option<Target>)>, name: string, i: nat)
    requires i <= |table|
  {
    forall m :: 0 <= m < i ==> PassedOver(table[m], name)
  }

  /** Entry `i` is the first that shares two words with `name`, and no None entry comes before it. */
  predicate FirstShared(table: seq<(string, Option<Target>)>, name: string, i: int) {
    0 <= i < |table| && SharesTwoWords(table[i].0, name) && ClearBefore(table, name, i)
  }

  /** `fuzzy_match_line_item`: the target of the first entry sharing two
      words with the name; unpacking a None entry in the loop header raises. */
  function PyFuzzy(table: seq<(string, Option<Target>)>, name: string): (r: FuzzyOutcome)
    ensures r.Hit? ==> exists i :: 0 <= i < |table| && table[i].1 == Some(r.target) && SharesTwoWords(table[i].0, name)
    ensures r.Miss? ==> forall i :: 0 <= i < |table| ==> table[i].1.Some?
  {
    if table == [] then Miss
    else match table[0].1
      case None => UnpackError
      case Some(t) => if SharesTwoWords(table[0].0, name) then Hit(t) else PyFuzzy(table[1..], name)
  }

  lemma ClearBeforeShift(table: seq<(string, Option<Target>)>, name: string, i: nat)
    requires table != [] && i < |table|
    requires PassedOver(table[0], name)
    ensures ClearBefore(table[1..], name, i) <==> ClearBefore(table, name, i + 1)
  {
    if ClearBefore(table[1..], name, i) {
      ClearBeforeFromTail(table, name, i);
    }
    if ClearBefore(table, name, i + 1) {
      ClearBeforeToTail(table, name, i);
    }
  }

  lemma ClearBeforeFromTail(table: seq<(string, Option<Target>)>, name: string, i: nat)
    requires table != [] && i < |table|
    requires PassedOver(table[0], name) && ClearBefore(table[1..], name, i)
    ensures ClearBefore(table, name, i + 1)
  {
    var tail := table[1..];
    forall m | 0 <= m < i + 1 ensures PassedOver(table[m], name) {
      if m > 0 {
        assert table[m] == tail[m - 1];
      }
    }
  }

  lemma ClearBeforeToTail(table: seq<(string, Option<Target>)>, name: string, i: nat)
    requires table != [] && i < |table|
    requires ClearBefore(table, name, i + 1)
    ensures ClearBefore(table[1..], name, i)
  {
    var tail := table[1..];
    forall m | 0 <= m < i ensures PassedOver(tail[m], name) {
      assert tail[m] == table[m + 1];
    }
  }

  /** A hit of the fallback is the first entry, in table order, that shares
      two words with the name, with no None entry before it. */
  lemma {:induction false} PyFuzzyHitIsFirst(table: seq<(string, Option<Target>)>, name: string)
    requires PyFuzzy(table, name).Hit?
    ensures exists i :: FirstShared(table, name, i) && table[i].1 == Some(PyFuzzy(table, name).target)
  {
    if table[0].1.Some? && !SharesTwoWords(table[0].0, name) {
      PyFuzzyHitIsFirst(table[1..], name);
      var i :| FirstShared(table[1..], name, i) && table[1..][i].1 == Some(PyFuzzy(table, name).target);
      ClearBeforeShift(table, name, i);
      assert FirstShared(table, name, i + 1);
    } else {
      assert FirstShared(table, name, 0);
    }
  }

  /** The fallback raises exactly at a None entry that no earlier hit precedes. */
  lemma {:induction false} PyFuzzyErrorAtNone(table: seq<(string, Option<Target>)>, name: string)
    requires PyFuzzy(table, name).UnpackError?
    ensures exists i :: 0 <= i < |table| && table[i].1.None? && ClearBefore(table, name, i)
  {
    if table[0].1.Some? {
      PyFuzzyErrorAtNone(table[1..], name);
      var i :| 0 <= i < |table| - 1 && table[1..][i].1.None? && ClearBefore(table[1..], name, i);
      ClearBeforeShift(table, name, i);
      assert table[i + 1].1.None?;
    } else {
      assert ClearBefore(table, name, 0);
    }
  }

  /** The fallback returns None exactly when no entry is None and none shares two words. */
  lemma {:induction false} PyFuzzyMissIffClear(table: seq<(string, Option<Target>)>, name: string)
    ensures PyFuzzy(table, name).Miss? <==> ClearBefore(table, name, |table|)
  {
    if table != [] {
      if table[0].1.Some? && !SharesTwoWords(table[0].0, name) {
        PyFuzzyMissIffClear(table[1..], name);
        ClearBeforeShift(table, name, |table| - 1);
      } else {
        assert !ClearBefore(table, name, |table|) by {
          assert 0 < |table|;
        }
      }
    }
  }

  /** The loop of `fuzzy_match_line_item` over the table's entries. */
  method FuzzyMatchLineItem(name: string) returns (r: FuzzyOutcome)
    ensures r == PyFuzzy(PyTable, name)
  {
    r := ScanForSharedWords(PyTable, name);
  }

  /** The loop of `fuzzy_match_line_item` over any table of entries. */
  method ScanForSharedWords(table: seq<(string, Option<Target>)>, name: string) returns (r: FuzzyOutcome)
    ensures r == PyFuzzy(table, name)
  {
    var i := 0;
    while i < |table|
      invariant 0 <= i <= |table|
      invariant PyFuzzy(table, name) == PyFuzzy(table[i..], name)
    {
      assert table[i..][1..] == table[i + 1..];
      var entry := table[i];
      if entry.1.None? {
        return UnpackError;
      }
      if SharesTwoWords(entry.0, name) {
        return Hit(entry.1.value);
      }
      i := i + 1;
    }
    return Miss;
  }


  /** A table with a None entry never lets the Python fallback return None:
      it finds a hit before that entry or raises on it. */
  lemma {:induction false} PyFuzzyNoneEntry(table: seq<(string, Option<Target>)>, name: string, k: nat)
    requires k < |table| && table[k].1.None?
    ensures PyFuzzy(table, name) != Miss
  {
    if k > 0 && table[0].1.Some? && !SharesTwoWords(table[0].0, name) {
      PyFuzzyNoneEntry(table[1..], name, k - 1);
    }
  }

  /** The Python table holds "Report Context": None, so `fuzzy_match_line_item`
      never reaches its `return None`. */
  lemma PyFuzzyNeverMisses(name: string)
    ensures PyFuzzy(PyTable, name) != Miss
  {
    assert PyTable[57] == ("Report Context", None);
    PyFuzzyNoneEntry(PyTable, name, 57);
  }

  datatype Resolution = Mapped(target: Target) | Unmapped | Crash

  /** Python's truthiness of a mapping tuple: a non-empty tuple is always
      truthy, whatever it holds. */
  predicate TupleIsTruthy(t: Target) {
    true
  }

  /** How `populate_all_sections` resolves a line-item name: a None from
      `get` is skipped; a falsy mapping would go to the fuzzy fallback, whose
      None is skipped and whose error would propagate. */
  function PyResolve(name: string): (r: Resolution)
    ensures r.Mapped? <==> exists i :: LastNamed(PyTable, name, i) && PyTable[i].1.Some?
    ensures r.Mapped? ==> PyGet(name) == Some(r.target)
    ensures !r.Crash?
  {
    match PyGet(name)
    case None => Unmapped
    case Some(t) =>
      if TupleIsTruthy(t) then Mapped(t)
      else match PyFuzzy(PyTable, name)
        case Hit(u) => Mapped(u)
        case Miss => Unmapped
        case UnpackError => Crash
  }

  // ---------------------------------------------------------------------
  // JavaScript

  /** The properties every object literal inherits from `Object.prototype`. */
  const InheritedNames: set<string> := {
    "constructor", "__proto__", "hasOwnProperty", "isPrototypeOf", "propertyIsEnumerable",
    "toString", "toLocaleString", "valueOf",
    "__defineGetter__", "__defineSetter__", "__lookupGetter__", "__lookupSetter__"}

  /** What `LINE_ITEM_MAPPING[name]` yields. */
  datatype Property = Own(target: Target) | Inherited | Undefined

  function JsGet(table: seq<(string, Target)>, name: string): Property {
    match Lookup(table, name)
    case Some(t) => Own(t)
    case None => if name in InheritedNames then Inherited else Undefined
  }

  /** `new Set(s.split())`: `split()` with no separator returns `[s]`. */
  function JsWordSet(s: string): set<string> {
    {s}
  }

  /** `fuzzyMatchLineItem`: the target of the first entry whose word set
      shares two elements with the name's. */
  function JsFuzzy(table: seq<(string, Target)>, name: string): (r: Option<Target>)
    ensures r.Some? ==> exists i :: 0 <= i < |table| && table[i].1 == r.value
  {
    if table == [] then None
    else
      var mappedWords := JsWordSet(Lower(table[0].0));
      var nameWords := JsWordSet(Lower(name));
      // an empty word set is skipped (`continue`), like a set sharing fewer than two words
      if |mappedWords| != 0 && |nameWords| != 0 && |mappedWords * nameWords| >= 2 then Some(table[0].1)
      else JsFuzzy(table[1..], name)
  }

  /** The JavaScript fallback never matches: both word sets are singletons. */
  lemma {:induction false} JsFuzzyNeverMatches(table: seq<(string, Target)>, name: string)
    ensures JsFuzzy(table, name) == None
  {
    if table != [] {
      var a, b := Lower(table[0].0), Lower(name);
      assert JsWordSet(a) * JsWordSet(b) == if a == b then {a} else {};
      JsFuzzyNeverMatches(table[1..], name);
    }
  }

  /** The loop of `fuzzyMatchLineItem` over `Object.entries(LINE_ITEM_MAPPING)`. */
  method FuzzyMatchLineItemJs(name: string) returns (r: Option<Target>)
    ensures r == JsFuzzy(JsTable, name)
  {
    var nameLower := Lower(name);
    r := None;
    var i := 0;
    while i < |JsTable| && r.None?
      invariant 0 <= i <= |JsTable|
      invariant r.None? ==> JsFuzzy(JsTable, name) == JsFuzzy(JsTable[i..], name)
      invariant r.Some? ==> r == JsFuzzy(JsTable, name)
    {
      assert JsTable[i..][1..] == JsTable[i + 1..];
      var entry := JsTable[i];
      var mappedWords := JsWordSet(Lower(entry.0));
      var nameWords := JsWordSet(nameLower);
      if |mappedWords| != 0 && |nameWords| != 0 && |mappedWords * nameWords| >= 2 {
        r := Some(entry.1);
      }
      i := i + 1;
    }
  }

  /** How `populateSections` resolves a name: an own property is used; an
      inherited one is truthy but not an array, so destructuring it throws;
      otherwise the fallback, whose null is skipped. */
  function JsResolve(name: string): (r: Resolution)
    ensures r.Mapped? <==> Lookup(JsTable, name).Some?
    ensures r.Mapped? ==> Lookup(JsTable, name) == Some(r.target)
    ensures r.Crash? <==> Lookup(JsTable, name).None? && name in InheritedNames
  {
    JsResolveIn(JsTable, name)
  }

  /** The resolution of `populateSections` against a given mapping object:
      only an exact name of the object is mapped (the fallback never matches),
      and a name it lacks but every object inherits throws. */
  function JsResolveIn(table: seq<(string, Target)>, name: string): (r: Resolution)
    ensures r.Mapped? <==> Lookup(table, name).Some?
    ensures r.Mapped? ==> Lookup(table, name) == Some(r.target)
    ensures r.Crash? <==> Lookup(table, name).None? && name in InheritedNames
  {
    JsFuzzyNeverMatches(table, name);
    match JsGet(table, name)
    case Own(t) => Mapped(t)
    case Inherited => Crash
    case Undefined =>
      match JsFuzzy(table, name)
      case Some(t) => Mapped(t)
      case None => Unmapped
  }

  /** The informational entries are skipped by the Python populator. */
  lemma PySkipsInformational(name: string)
    requires name == "Report Context" || name == "General Information"
    ensures PyGet(name).None? && Lookup(PyTable, name) == Some(None)
    ensures PyResolve(name) == Unmapped
  {
    LookupAppend(PyRows0 + PyRows1 + PyRows2 + PyRows3 + PyRows4 + PyRows5 + PyRows6, PyRows7, name);
  }

  /** The last entry of both tables maps to item B (Grading and Drainage) of the first section. */
  lemma SiteContextMapped(name: string)
    requires name == "Site and Property Context"
    ensures PyResolve(name) == Mapped(Target("B", 0, "Grading and Drainage"))
    ensures JsResolve(name) == Mapped(Target("B", 0, "Grading and Drainage"))
  {
    LookupAppend(PyRows0 + PyRows1 + PyRows2 + PyRows3 + PyRows4 + PyRows5 + PyRows6, PyRows7, name);
    LookupAppend(JsRows0 + JsRows1 + JsRows2 + JsRows3 + JsRows4, JsRows5, name);
  }

  /** No entry of the first four Python blocks is named "constructor". */
  lemma PyRowsLackConstructorHead(name: string)
    requires name == "constructor"
    ensures Lookup(PyRows0, name).None? && Lookup(PyRows1, name).None? && Lookup(PyRows2, name).None? && Lookup(PyRows3, name).None?
  {
    assert forall i :: 0 <= i < |PyRows0| ==> PyRows0[i].0 != name;
    assert forall i :: 0 <= i < |PyRows1| ==> PyRows1[i].0 != name;
    assert forall i :: 0 <= i < |PyRows2| ==> PyRows2[i].0 != name;
    assert forall i :: 0 <= i < |PyRows3| ==> PyRows3[i].0 != name;
  }

  /** No entry of the last four Python blocks is named "constructor". */
  lemma PyRowsLackConstructorTail(name: string)
    requires name == "constructor"
    ensures Lookup(PyRows4, name).None? && Lookup(PyRows5, name).None? && Lookup(PyRows6, name).None? && Lookup(PyRows7, name).None?
  {
    assert forall i :: 0 <= i < |PyRows4| ==> PyRows4[i].0 != name;
    assert forall i :: 0 <= i < |PyRows5| ==> PyRows5[i].0 != name;
    assert forall i :: 0 <= i < |PyRows6| ==> PyRows6[i].0 != name;
    assert forall i :: 0 <= i < |PyRows7| ==> PyRows7[i].0 != name;
  }

  /** No entry of the first three browser blocks is named "constructor" or "Report Context". */
  lemma JsRowsLackHead(name: string)
    requires name == "constructor" || name == "Report Context"
    ensures Lookup(JsRows0, name).None? && Lookup(JsRows1, name).None? && Lookup(JsRows2, name).None?
  {
    assert forall i :: 0 <= i < |JsRows0| ==> JsRows0[i].0 != name;
    assert forall i :: 0 <= i < |JsRows1| ==> JsRows1[i].0 != name;
    assert forall i :: 0 <= i < |JsRows2| ==> JsRows2[i].0 != name;
  }

  /** No entry of the last three browser blocks is named "constructor" or "Report Context". */
  lemma JsRowsLackTail(name: string)
    requires name == "constructor" || name == "Report Context"
    ensures Lookup(JsRows3, name).None? && Lookup(JsRows4, name).None? && Lookup(JsRows5, name).None?
  {
    assert forall i :: 0 <= i < |JsRows3| ==> JsRows3[i].0 != name;
    assert forall i :: 0 <= i < |JsRows4| ==> JsRows4[i].0 != name;
    assert forall i :: 0 <= i < |JsRows5| ==> JsRows5[i].0 != name;
  }

  /** The browser table has no skip entries: "Report Context" is dropped
      because it is absent (and the fallback never matches). */
  lemma JsDropsReportContext(name: string)
    requires name == "Report Context"
    ensures Lookup(JsTable, name).None?
    ensures JsResolve(name) == Unmapped
  {
    JsRowsLackHead(name);
    JsRowsLackTail(name);
    JsAbsent(name);
  }

  /** A name that only the first Python block binds is looked up there. */
  lemma PyFromFirstBlock(name: string)
    requires Lookup(PyRows1, name).None? && Lookup(PyRows2, name).None? && Lookup(PyRows3, name).None?
    requires Lookup(PyRows4, name).None? && Lookup(PyRows5, name).None? && Lookup(PyRows6, name).None? && Lookup(PyRows7, name).None?
    ensures Lookup(PyTable, name) == Lookup(PyRows0, name)
  {
    LookupAppend(PyRows0, PyRows1, name);
    LookupAppend(PyRows0 + PyRows1, PyRows2, name);
    LookupAppend(PyRows0 + PyRows1 + PyRows2, PyRows3, name);
    LookupAppend(PyRows0 + PyRows1 + PyRows2 + PyRows3, PyRows4, name);
    LookupAppend(PyRows0 + PyRows1 + PyRows2 + PyRows3 + PyRows4, PyRows5, name);
    LookupAppend(PyRows0 + PyRows1 + PyRows2 + PyRows3 + PyRows4 + PyRows5, PyRows6, name);
    LookupAppend(PyRows0 + PyRows1 + PyRows2 + PyRows3 + PyRows4 + PyRows5 + PyRows6, PyRows7, name);
  }

  /** A name that only the first browser block binds is looked up there. */
  lemma JsFromFirstBlock(name: string)
    requires Lookup(JsRows1, name).None? && Lookup(JsRows2, name).None?
    requires Lookup(JsRows3, name).None? && Lookup(JsRows4, name).None? && Lookup(JsRows5, name).None?
    ensures Lookup(JsTable, name) == Lookup(JsRows0, name)
  {
    LookupAppend(JsRows0, JsRows1, name);
    LookupAppend(JsRows0 + JsRows1, JsRows2, name);
    LookupAppend(JsRows0 + JsRows1 + JsRows2, JsRows3, name);
    LookupAppend(JsRows0 + JsRows1 + JsRows2 + JsRows3, JsRows4, name);
    LookupAppend(JsRows0 + JsRows1 + JsRows2 + JsRows3 + JsRows4, JsRows5, name);
  }

  /** The two names of the first block whose targets share section 0. */
  predicate FirstSectionName(name: string) {
    name == "Decks and Stairways" || name == "Exterior Cladding and Trim"
  }

  /** The target both tables give the first entries, at lines 87 and 89 of
      the Python table and lines 5 and 7 of the browser table. */
  function FirstSectionTarget(name: string): Target {
    if name == "Decks and Stairways" then Target("K", 0, "Porches, Balconies, Decks, and Carports")
    else Target("E", 0, "Walls (Interior and Exterior)")
  }

  lemma PyRowsTailLackHead(name: string)
    requires FirstSectionName(name)
    ensures Lookup(PyRows1, name).None? && Lookup(PyRows2, name).None? && Lookup(PyRows3, name).None?
  {
    assert forall i :: 0 <= i < |PyRows1| ==> PyRows1[i].0 != name;
    assert forall i :: 0 <= i < |PyRows2| ==> PyRows2[i].0 != name;
    assert forall i :: 0 <= i < |PyRows3| ==> PyRows3[i].0 != name;
  }

  lemma PyRowsTailLackTail(name: string)
    requires FirstSectionName(name)
    ensures Lookup(PyRows4, name).None? && Lookup(PyRows5, name).None? && Lookup(PyRows6, name).None? && Lookup(PyRows7, name).None?
  {
    assert forall i :: 0 <= i < |PyRows4| ==> PyRows4[i].0 != name;
    assert forall i :: 0 <= i < |PyRows5| ==> PyRows5[i].0 != name;
    assert forall i :: 0 <= i < |PyRows6| ==> PyRows6[i].0 != name;
    assert forall i :: 0 <= i < |PyRows7| ==> PyRows7[i].0 != name;
  }

  lemma JsRowsTailLackHead(name: string)
    requires FirstSectionName(name)
    ensures Lookup(JsRows1, name).None? && Lookup(JsRows2, name).None?
  {
    assert forall i :: 0 <= i < |JsRows1| ==> JsRows1[i].0 != name;
    assert forall i :: 0 <= i < |JsRows2| ==> JsRows2[i].0 != name;
  }

  lemma JsRowsTailLackTail(name: string)
    requires FirstSectionName(name)
    ensures Lookup(JsRows3, name).None? && Lookup(JsRows4, name).None? && Lookup(JsRows5, name).None?
  {
    assert forall i :: 0 <= i < |JsRows3| ==> JsRows3[i].0 != name;
    assert forall i :: 0 <= i < |JsRows4| ==> JsRows4[i].0 != name;
    assert forall i :: 0 <= i < |JsRows5| ==> JsRows5[i].0 != name;
  }

  /** The first Python block binds each of the two names once. */
  lemma PyFirstBlockBinds(name: string)
    requires FirstSectionName(name)
    ensures Lookup(PyRows0, name) == Some(Some(FirstSectionTarget(name)))
  {
    var at := if name == "Decks and Stairways" then 0 else 2;
    assert PyRows0[at] == (name, Some(FirstSectionTarget(name)));
    assert forall i :: 0 <= i < |PyRows0| && i != at ==> PyRows0[i].0 != name;
  }

  /** The first browser block binds each of the two names once. */
  lemma JsFirstBlockBinds(name: string)
    requires FirstSectionName(name)
    ensures Lookup(JsRows0, name) == Some(FirstSectionTarget(name))
  {
    var at := if name == "Decks and Stairways" then 0 else 2;
    assert JsRows0[at] == (name, FirstSectionTarget(name));
    assert forall i :: 0 <= i < |JsRows0| && i != at ==> JsRows0[i].0 != name;
  }

  /** "Decks and Stairways" maps to item K and "Exterior Cladding and Trim"
      to item E of the first section in the Python table. */
  lemma PyFirstSectionNamesMapped(name: string)
    requires FirstSectionName(name)
    ensures PyResolve(name) == Mapped(FirstSectionTarget(name))
  {
    PyRowsTailLackHead(name);
    PyRowsTailLackTail(name);
    PyFromFirstBlock(name);
    PyFirstBlockBinds(name);
  }

  /** The same two names map to the same items in the browser table. */
  lemma JsFirstSectionNamesMapped(name: string)
    requires FirstSectionName(name)
    ensures JsResolve(name) == Mapped(FirstSectionTarget(name))
  {
    JsRowsTailLackHead(name);
    JsRowsTailLackTail(name);
    JsFromFirstBlock(name);
    JsFirstBlockBinds(name);
  }

  /** A line item called "constructor" is skipped by Python but throws in the browser. */
  lemma InheritedNameDiverges(name: string)
    requires name == "constructor"
    ensures PyResolve(name) == Unmapped
    ensures JsResolve(name) == Crash
  {
    PyRowsLackConstructorHead(name);
    PyRowsLackConstructorTail(name);
    PyAbsent(name);
    JsRowsLackHead(name);
    JsRowsLackTail(name);
    JsAbsent(name);
  }
}
