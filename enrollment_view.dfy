/** The projections of the enrollment wizard (src/backup/enrollment.ts) that do
    not depend on page state: the rows of the section table, the running total
    over checked boxes, the selection as an insertion-ordered set, and the
    confirmation table with its grand total. */
module EnrollmentView {

  /** One offered section, as `GET /enrollment/options` returns it. */
  datatype Section = Section(
    sectionNo: int,
    sectionName: string,
    subjectCode: string,
    subjectTitle: string,
    units: int,
    schedule: string,
    status: string)

  /** Only this exact status gives a section an enabled checkbox. */
  const OpenStatus: string := "OPEN"

  predicate IsOpen(s: Section)
  {
    s.status == OpenStatus
  }

  /** A row of the step-2 table, as a descriptor instead of markup: the one
      placeholder row of an empty catalogue, or a section with its checkbox
      (value = the section number, data-units = its units). */
  datatype Row =
    | Placeholder
    | SectionRow(id: int, units: int, enabled: bool, subjectCode: string,
                 subjectTitle: string, sectionName: string, schedule: string, status: string)

  function RowOf(s: Section): Row
  {
    SectionRow(s.sectionNo, s.units, IsOpen(s), s.subjectCode, s.subjectTitle,
               s.sectionName, s.schedule, s.status)
  }

  /** The rows `renderTables` draws for a catalogue. */
  function RenderRows(sections: seq<Section>): (rows: seq<Row>)
    ensures sections == [] ==> rows == [Placeholder]
    ensures sections != [] ==> |rows| == |sections|
    ensures sections != [] ==> forall i :: 0 <= i < |rows| ==>
              rows[i].SectionRow? && rows[i].id == sections[i].sectionNo &&
              rows[i].units == sections[i].units && (rows[i].enabled <==> IsOpen(sections[i]))
  {
    if sections == [] then [Placeholder] else RowsOf(sections)
  }

  /** `sections.map(...)`: one row per section, in catalogue order. */
  function RowsOf(sections: seq<Section>): (rows: seq<Row>)
    ensures |rows| == |sections|
    ensures forall i :: 0 <= i < |rows| ==> rows[i] == RowOf(sections[i])
  {
    seq(|sections|, i requires 0 <= i < |sections| => RowOf(sections[i]))
  }

  // ---------------------------------------------------------------------------
  // Checked boxes and the running total of step 2

  /** The section numbers carried by the checked boxes. */
  function CheckedIds(rows: seq<Row>, checked: seq<bool>): set<int>
    requires |checked| == |rows|
  {
    set i | 0 <= i < |rows| && checked[i] && rows[i].SectionRow? :: rows[i].id
  }

  /** Sum of data-units over the checked boxes, in document order. */
  function CheckedUnits(rows: seq<Row>, checked: seq<bool>): int
    requires |checked| == |rows|
  {
    if rows == [] then 0
    else
      var n := |rows| - 1;
      CheckedUnits(rows[..n], checked[..n]) +
      (if checked[n] && rows[n].SectionRow? then rows[n].units else 0)
  }

  /** The listener's loop: walk the checked boxes and add up their units. */
  method TotalOfChecked(rows: seq<Row>, checked: seq<bool>) returns (total: int)
    requires |checked| == |rows|
    ensures total == CheckedUnits(rows, checked)
  {
    total := 0;
    var i := 0;
    while i < |rows|
      invariant 0 <= i <= |rows|
      invariant total == CheckedUnits(rows[..i], checked[..i])
    {
      if checked[i] && rows[i].SectionRow? {
        total := total + rows[i].units;
      }
      assert rows[..i + 1][..i] == rows[..i];
      assert checked[..i + 1][..i] == checked[..i];
      i := i + 1;
    }
    assert rows[..i] == rows && checked[..i] == checked;
  }

  lemma {:induction false} NothingCheckedTotalsZero(rows: seq<Row>, checked: seq<bool>)
    requires |checked| == |rows|
    requires forall i :: 0 <= i < |checked| ==> !checked[i]
    ensures CheckedUnits(rows, checked) == 0
  {
    if rows != [] {
      var n := |rows| - 1;
      NothingCheckedTotalsZero(rows[..n], checked[..n]);
    }
  }

  // ---------------------------------------------------------------------------
  // The selection: a JavaScript Set, i.e. a duplicate-free sequence in
  // insertion order

  predicate NoDup(s: seq<int>)
  {
    forall i, j :: 0 <= i < j < |s| ==> s[i] != s[j]
  }

  function Elems(s: seq<int>): set<int>
  {
    set x | x in s
  }

  /** `Set.add`: appends an id that is not yet present. */
  function Added(sel: seq<int>, id: int): (r: seq<int>)
    ensures NoDup(sel) ==> NoDup(r)
    ensures Elems(r) == Elems(sel) + {id}
    ensures id in sel ==> r == sel
    ensures id !in sel ==> r == sel + [id]
  {
    if id in sel then sel else sel + [id]
  }

  /** `Set.delete`: drops the id, keeping the order of the others. */
  function Deleted(sel: seq<int>, id: int): (r: seq<int>)
    ensures Elems(r) == Elems(sel) - {id}
    ensures |r| <= |sel|
  {
    if sel == [] then []
    else
      assert Elems(sel) == {sel[0]} + Elems(sel[1..]);
      if sel[0] == id then Deleted(sel[1..], id)
      else
        var rest := Deleted(sel[1..], id);
        assert Elems([sel[0]] + rest) == {sel[0]} + Elems(rest);
        [sel[0]] + rest
  }

  lemma {:induction false} DeletedKeepsNoDup(sel: seq<int>, id: int)
    requires NoDup(sel)
    ensures NoDup(Deleted(sel, id))
  {
    if sel != [] {
      DeletedKeepsNoDup(sel[1..], id);
      var rest := Deleted(sel[1..], id);
      assert sel[0] !in Elems(sel[1..]);
      if sel[0] != id {
        var r := [sel[0]] + rest;
        forall j | 0 < j < |r| ensures r[0] != r[j]
        {
          assert r[j] == rest[j - 1] && rest[j - 1] in Elems(rest);
        }
      }
    }
  }

  /** Checking a box whose id is not selected and then unchecking it gives back
      exactly the selection there was, order included. */
  lemma {:induction false} CheckThenUncheckRestores(sel: seq<int>, id: int)
    requires id !in sel
    ensures Deleted(Added(sel, id), id) == sel
  {
    if sel == [] {
    } else {
      assert (sel + [id])[1..] == sel[1..] + [id];
      CheckThenUncheckRestores(sel[1..], id);
    }
  }

  lemma {:induction false} NoDupCard(s: seq<int>)
    requires NoDup(s)
    ensures |Elems(s)| == |s|
  {
    if s != [] {
      var n := |s| - 1;
      assert Elems(s) == Elems(s[..n]) + {s[n]};
      assert s[n] !in Elems(s[..n]);
      NoDupCard(s[..n]);
    }
  }

  /** What the change listener does to the selection for the box's new state. */
  function Toggled(sel: seq<int>, id: int, nowChecked: bool): seq<int>
  {
    if nowChecked then Added(sel, id) else Deleted(sel, id)
  }

  // ---------------------------------------------------------------------------
  // Consistency between the checked boxes, the selection and the total

  predicate UniqueIds(sections: seq<Section>)
  {
    forall i, j :: 0 <= i < j < |sections| ==> sections[i].sectionNo != sections[j].sectionNo
  }

  predicate UniqueRowIds(rows: seq<Row>)
  {
    forall i, j :: 0 <= i < j < |rows| && rows[i].SectionRow? && rows[j].SectionRow? ==>
      rows[i].id != rows[j].id
  }

  /** The state the change listener keeps: only enabled boxes are checked, the
      selection holds only ids of checked boxes (all of them when ids are
      unique), and the displayed total is the sum over checked boxes. */
  predicate Consistent(rows: seq<Row>, checked: seq<bool>, sel: seq<int>, total: int)
  {
    |checked| == |rows| &&
    (forall i :: 0 <= i < |rows| && checked[i] ==> rows[i].SectionRow? && rows[i].enabled) &&
    NoDup(sel) &&
    Elems(sel) <= CheckedIds(rows, checked) &&
    (UniqueRowIds(rows) ==> CheckedIds(rows, checked) <= Elems(sel)) &&
    total == CheckedUnits(rows, checked)
  }

  lemma FreshRowsConsistent(rows: seq<Row>)
    ensures Consistent(rows, seq(|rows|, _ => false), [], 0)
  {
    var none := seq(|rows|, _ => false);
    NothingCheckedTotalsZero(rows, none);
    assert CheckedIds(rows, none) == {};
  }

  lemma CheckedIdsAfterToggle(rows: seq<Row>, checked: seq<bool>, i: nat)
    requires |checked| == |rows| && i < |rows| && rows[i].SectionRow?
    ensures checked[i] ==> CheckedIds(rows, checked[i := false]) <= CheckedIds(rows, checked)
    ensures checked[i] ==> CheckedIds(rows, checked) - {rows[i].id} <= CheckedIds(rows, checked[i := false])
    ensures !checked[i] ==> CheckedIds(rows, checked[i := true]) == CheckedIds(rows, checked) + {rows[i].id}
  {
    var c' := checked[i := !checked[i]];
    if checked[i] {
      forall x | x in CheckedIds(rows, checked) - {rows[i].id}
        ensures x in CheckedIds(rows, c')
      {
        var k :| 0 <= k < |rows| && checked[k] && rows[k].SectionRow? && rows[k].id == x;
        assert k != i;
      }
    }
  }

  /** Before the table is drawn there is nothing to select. */
  lemma NoTableNoSelection(rows: seq<Row>, checked: seq<bool>, sel: seq<int>, total: int)
    requires Consistent(rows, checked, sel, total)
    ensures rows == [] ==> sel == []
  {
    if sel != [] {
      assert sel[0] in Elems(sel);
    }
  }

  /** The change listener keeps the state consistent: toggling an enabled box
      moves its id into or out of the selection and the total follows. */
  lemma ToggleKeepsConsistent(rows: seq<Row>, checked: seq<bool>, sel: seq<int>, total: int, i: nat)
    requires Consistent(rows, checked, sel, total)
    requires i < |rows| && rows[i].SectionRow? && rows[i].enabled
    ensures Consistent(rows, checked[i := !checked[i]], Toggled(sel, rows[i].id, !checked[i]),
                       CheckedUnits(rows, checked[i := !checked[i]]))
  {
    var id := rows[i].id;
    var c' := checked[i := !checked[i]];
    var sel' := Toggled(sel, id, !checked[i]);
    CheckedIdsAfterToggle(rows, checked, i);
    if checked[i] {
      DeletedKeepsNoDup(sel, id);
      assert Elems(sel') == Elems(sel) - {id};
      if UniqueRowIds(rows) {
        forall x | x in CheckedIds(rows, c') ensures x in Elems(sel')
        {
          var k :| 0 <= k < |rows| && c'[k] && rows[k].SectionRow? && rows[k].id == x;
          assert k != i;
        }
      } else {
        forall x | x in Elems(sel') ensures x in CheckedIds(rows, c')
        {
          var k :| 0 <= k < |rows| && checked[k] && rows[k].SectionRow? && rows[k].id == x;
          assert k != i;
        }
      }
    }
  }

  /** Under the consistency invariant and unique ids, a box is checked exactly
      when its section number is selected. */
  lemma CheckedIffSelected(rows: seq<Row>, checked: seq<bool>, sel: seq<int>, total: int, i: nat)
    requires Consistent(rows, checked, sel, total) && UniqueRowIds(rows)
    requires i < |rows| && rows[i].SectionRow?
    ensures checked[i] <==> rows[i].id in sel
  {
    if checked[i] {
      assert rows[i].id in CheckedIds(rows, checked);
      assert rows[i].id in Elems(sel);
    }
    if rows[i].id in sel {
      assert rows[i].id in Elems(sel);
      assert rows[i].id in CheckedIds(rows, checked);
      var k :| 0 <= k < |rows| && checked[k] && rows[k].SectionRow? && rows[k].id == rows[i].id;
      assert k == i;
    }
  }

  /** Only sections whose status is exactly "OPEN" can be in the selection. */
  lemma SelectedAreOpen(sections: seq<Section>, checked: seq<bool>, sel: seq<int>, total: int, x: int)
    requires Consistent(RenderRows(sections), checked, sel, total)
    requires x in sel
    ensures exists i :: 0 <= i < |sections| && sections[i].sectionNo == x && IsOpen(sections[i])
  {
    var rows := RenderRows(sections);
    assert x in CheckedIds(rows, checked);
    var k :| 0 <= k < |rows| && checked[k] && rows[k].SectionRow? && rows[k].id == x;
    assert IsOpen(sections[k]);
  }

  // ---------------------------------------------------------------------------
  // The confirmation table of step 3

  /** `availableSections.filter(s => selectedSectionIds.has(s.sectionNo))`. */
  function Selected(sections: seq<Section>, sel: set<int>): (r: seq<Section>)
    ensures |r| <= |sections|
    ensures forall s :: s in r ==> s in sections && s.sectionNo in sel
  {
    if sections == [] then []
    else
      var n := |sections| - 1;
      Selected(sections[..n], sel) + (if sections[n].sectionNo in sel then [sections[n]] else [])
  }

  /** The positions in the catalogue of the selected sections, ascending. */
  function SelectedPositions(sections: seq<Section>, sel: set<int>): seq<int>
  {
    if sections == [] then []
    else
      var n := |sections| - 1;
      SelectedPositions(sections[..n], sel) + (if sections[n].sectionNo in sel then [n] else [])
  }

  /** The confirmation rows are the catalogue sections at the selected
      positions, one row per position. */
  lemma {:induction false} SelectedAtPositions(sections: seq<Section>, sel: set<int>)
    ensures |Selected(sections, sel)| == |SelectedPositions(sections, sel)|
    ensures forall k :: 0 <= k < |SelectedPositions(sections, sel)| ==>
              0 <= SelectedPositions(sections, sel)[k] < |sections| &&
              Selected(sections, sel)[k] == sections[SelectedPositions(sections, sel)[k]]
  {
    if sections != [] {
      var n := |sections| - 1;
      SelectedAtPositions(sections[..n], sel);
    }
  }

  /** The selected positions ascend strictly: catalogue order is kept and no
      section appears twice. */
  lemma {:induction false} SelectedPositionsAscend(sections: seq<Section>, sel: set<int>)
    ensures forall k :: 0 <= k < |SelectedPositions(sections, sel)| ==>
              0 <= SelectedPositions(sections, sel)[k] < |sections|
    ensures forall k, l :: 0 <= k < l < |SelectedPositions(sections, sel)| ==>
              SelectedPositions(sections, sel)[k] < SelectedPositions(sections, sel)[l]
  {
    if sections != [] {
      var n := |sections| - 1;
      SelectedPositionsAscend(sections[..n], sel);
    }
  }

  /** A catalogue position is kept exactly when its section number is selected. */
  lemma {:induction false} SelectedPositionsExact(sections: seq<Section>, sel: set<int>, i: int)
    requires 0 <= i < |sections|
    ensures i in SelectedPositions(sections, sel) <==> sections[i].sectionNo in sel
  {
    var n := |sections| - 1;
    var pre := sections[..n];
    SelectedPositionsAscend(pre, sel);
    if i < n {
      SelectedPositionsExact(pre, sel, i);
    }
  }

  function SumUnits(items: seq<Section>): int
  {
    if items == [] then 0 else SumUnits(items[..|items| - 1]) + items[|items| - 1].units
  }

  /** One row of the confirmation table: its 1-based number and the section. */
  datatype ConfirmRow = ConfirmRow(index: int, subjectCode: string, subjectTitle: string,
                                   units: int, schedule: string)

  /** Number the items 1, 2, … in order. */
  function Numbered(items: seq<Section>): (rows: seq<ConfirmRow>)
    ensures |rows| == |items|
    ensures forall k :: 0 <= k < |rows| ==>
              (rows[k].index == k + 1 && rows[k].subjectCode == items[k].subjectCode &&
               rows[k].units == items[k].units)
  {
    seq(|items|, k requires 0 <= k < |items| =>
      ConfirmRow(k + 1, items[k].subjectCode, items[k].subjectTitle, items[k].units, items[k].schedule))
  }

  /** `renderConfirmation`'s loop: filter the catalogue by the selection, then
      emit one numbered row per kept section and add up the units. */
  method BuildConfirmation(sections: seq<Section>, sel: set<int>)
    returns (rows: seq<ConfirmRow>, totalUnits: int)
    ensures rows == Numbered(Selected(sections, sel))
    ensures totalUnits == SumUnits(Selected(sections, sel))
  {
    var chosen := Selected(sections, sel);
    rows, totalUnits := [], 0;
    var idx := 1;
    var k := 0;
    while k < |chosen|
      invariant 0 <= k <= |chosen| && idx == k + 1
      invariant rows == Numbered(chosen[..k])
      invariant totalUnits == SumUnits(chosen[..k])
    {
      var item := chosen[k];
      totalUnits := totalUnits + item.units;
      rows := rows + [ConfirmRow(idx, item.subjectCode, item.subjectTitle, item.units, item.schedule)];
      idx := idx + 1;
      assert chosen[..k + 1][..k] == chosen[..k];
      k := k + 1;
    }
    assert chosen[..k] == chosen;
  }

  function Ids(sections: seq<Section>): set<int>
  {
    set i | 0 <= i < |sections| :: sections[i].sectionNo
  }

  /** With unique section numbers, the confirmation has one row per selected
      section number that the catalogue offers. */
  lemma {:induction false} SelectedCount(sections: seq<Section>, sel: set<int>)
    requires UniqueIds(sections)
    ensures |Selected(sections, sel)| == |sel * Ids(sections)|
  {
    if sections != [] {
      var n := |sections| - 1;
      var pre := sections[..n];
      assert UniqueIds(pre);
      SelectedCount(pre, sel);
      IdsSnoc(sections);
      if sections[n].sectionNo in sel {
        assert sel * Ids(sections) == (sel * Ids(pre)) + {sections[n].sectionNo};
      } else {
        assert sel * Ids(sections) == sel * Ids(pre);
      }
    }
  }

  lemma IdsSnoc(sections: seq<Section>)
    requires sections != [] && UniqueIds(sections)
    ensures Ids(sections) == Ids(sections[..|sections| - 1]) + {sections[|sections| - 1].sectionNo}
    ensures sections[|sections| - 1].sectionNo !in Ids(sections[..|sections| - 1])
  {
    var n := |sections| - 1;
    var pre := sections[..n];
    forall x | x in Ids(sections) ensures x in Ids(pre) + {sections[n].sectionNo}
    {
      var i :| 0 <= i < |sections| && sections[i].sectionNo == x;
      if i < n { assert pre[i] == sections[i]; }
    }
    forall x | x in Ids(pre) ensures x in Ids(sections)
    {
      var i :| 0 <= i < |pre| && pre[i].sectionNo == x;
      assert sections[i] == pre[i];
    }
  }

  lemma {:induction false} CheckedUnitsOfRows(sections: seq<Section>, checked: seq<bool>, sel: set<int>)
    requires |checked| == |sections|
    requires forall i :: 0 <= i < |sections| ==> (checked[i] <==> sections[i].sectionNo in sel)
    ensures CheckedUnits(RowsOf(sections), checked) == SumUnits(Selected(sections, sel))
  {
    var rows := RowsOf(sections);
    if sections != [] {
      var n := |sections| - 1;
      var pre := sections[..n];
      assert rows[..n] == RowsOf(pre);
      CheckedUnitsOfRows(pre, checked[..n], sel);
      assert rows[n] == RowOf(sections[n]);
      assert CheckedUnits(rows, checked) == CheckedUnits(rows[..n], checked[..n]) +
        (if checked[n] then sections[n].units else 0);
      var tail := if sections[n].sectionNo in sel then [sections[n]] else [];
      var all := Selected(pre, sel) + tail;
      assert Selected(sections, sel) == all;
      if tail != [] {
        assert all[..|all| - 1] == Selected(pre, sel);
        assert all[|all| - 1] == sections[n];
        assert SumUnits(all) == SumUnits(Selected(pre, sel)) + sections[n].units;
      } else {
        assert all == Selected(pre, sel);
      }
    }
  }

  /** The total shown on step 2 equals the total confirmed on step 3: with
      unique section numbers, the sum over checked boxes is the sum of units
      over the catalogue sections whose number is selected. */
  lemma TotalsAgree(sections: seq<Section>, checked: seq<bool>, sel: seq<int>, total: int)
    requires UniqueIds(sections)
    requires Consistent(RenderRows(sections), checked, sel, total)
    ensures total == SumUnits(Selected(sections, Elems(sel)))
  {
    var rows := RenderRows(sections);
    if sections != [] {
      assert UniqueRowIds(rows);
      forall i | 0 <= i < |sections| ensures checked[i] <==> sections[i].sectionNo in Elems(sel)
      {
        CheckedIffSelected(rows, checked, sel, total, i);
      }
      CheckedUnitsOfRows(sections, checked, Elems(sel));
    } else {
      assert rows == [Placeholder] && !checked[0];
      assert rows[..0] == [] && checked[..0] == [];
      assert CheckedUnits(rows, checked) == CheckedUnits([], []) + 0;
      assert Selected(sections, Elems(sel)) == [];
    }
  }

  /** With unique section numbers the confirmation has exactly as many rows as
      the selection has ids. */
  lemma ConfirmationSize(sections: seq<Section>, checked: seq<bool>, sel: seq<int>, total: int)
    requires UniqueIds(sections)
    requires Consistent(RenderRows(sections), checked, sel, total)
    ensures |Numbered(Selected(sections, Elems(sel)))| == |sel|
  {
    var rows := RenderRows(sections);
    SelectedCount(sections, Elems(sel));
    forall x | x in Elems(sel) ensures x in Ids(sections)
    {
      assert x in CheckedIds(rows, checked);
      var k :| 0 <= k < |rows| && checked[k] && rows[k].SectionRow? && rows[k].id == x;
      assert sections[k].sectionNo == x;
    }
    assert Elems(sel) * Ids(sections) == Elems(sel);
    NoDupCard(sel);
  }

  /** A catalogue of one open and one full section: only the open one gets an
      enabled box, checking it totals 3 units, and the confirmation lists it
      alone as row 1. */
  lemma OpenAndFullScenario()
    ensures var open := Section(1, "A", "CS101", "Intro", 3, "MWF", "OPEN");
            var full := Section(2, "B", "CS102", "Data", 4, "TTh", "FULL");
            var rows := RenderRows([open, full]);
            rows[0].enabled && !rows[1].enabled &&
            CheckedUnits(rows, [true, false]) == 3 &&
            Numbered(Selected([open, full], {1})) == [ConfirmRow(1, "CS101", "Intro", 3, "MWF")]
  {
    var open := Section(1, "A", "CS101", "Intro", 3, "MWF", "OPEN");
    var full := Section(2, "B", "CS102", "Data", 4, "TTh", "FULL");
    var rows := RenderRows([open, full]);
    assert rows[..1][..0] == [] && [true, false][..1][..0] == [];
    assert rows[..1] == [rows[0]] && [true, false][..1] == [true];
    assert [open, full][..1] == [open] && [open][..0] == [];
    assert Selected([open], {1}) == [open];
    assert Selected([open, full], {1}) == [open];
  }
}
