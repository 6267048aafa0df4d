/**
 The batch step of the two tabs: every pasted text is parsed in turn, and
 the records that came out are gathered in input order for export; the
 export then keeps the declared columns that some record actually has.
 */
module Batch {
  import opened Wrappers
  import opened Values
  import opened Inverter
  import opened Panel

  /** Python truthiness of a parse result: a record that is not None and not an empty dictionary. */
  predicate Truthy(r: Option<Record>) {
    r.Some? && r.value != map[]
  }

  /** Whether one pasted text contributes a row: it is not empty and its parse is truthy. */
  predicate Contributes(input: string, parse: string -> Option<Record>) {
    input != "" && Truthy(parse(input))
  }

  /** The records a batch of pasted texts yields, in input order. */
  function Kept(inputs: seq<string>, parse: string -> Option<Record>): (r: seq<Record>)
    ensures |r| <= |inputs|
    ensures forall k :: 0 <= k < |r| ==> r[k] != map[]
    decreases |inputs|
  {
    if inputs == [] then []
    else
      var last := inputs[|inputs| - 1];
      Kept(inputs[..|inputs| - 1], parse) + (if Contributes(last, parse) then [parse(last).value] else [])
  }

  /**
   The loop over the text areas: skip an empty text, parse the rest, and
   append every truthy result to the list.
   */
  method CollectRecords(inputs: seq<string>, parse: string -> Option<Record>) returns (rows: seq<Record>)
    ensures rows == Kept(inputs, parse)
    ensures |rows| <= |inputs|
    ensures forall k :: 0 <= k < |rows| ==> rows[k] != map[]
  {
    rows := [];
    for i := 0 to |inputs|
      invariant rows == Kept(inputs[..i], parse)
    {
      assert inputs[..i + 1][..i] == inputs[..i];
      var data := inputs[i];
      if data != "" {
        var parsed := parse(data);
        if parsed.Some? && parsed.value != map[] {
          rows := rows + [parsed.value];
        }
      }
    }
    assert inputs[..|inputs|] == inputs;
  }

  /** The inverter tab's loop. */
  method CollectInverters(inputs: seq<string>) returns (rows: seq<Record>)
    ensures rows == Kept(inputs, ParseInverterData)
    ensures forall k :: 0 <= k < |rows| ==> rows[k].Keys == InverterNames
  {
    rows := CollectRecords(inputs, ParseInverterData);
    KeptInvertersComplete(inputs);
  }

  /** The panel tab's loop. */
  method CollectPanels(inputs: seq<string>) returns (rows: seq<Record>)
    ensures rows == Kept(inputs, ParseSolarPanelData)
    ensures forall k :: 0 <= k < |rows| ==> rows[k].Keys == PanelNames + DerivedNames
  {
    rows := CollectRecords(inputs, ParseSolarPanelData);
    KeptPanelsComplete(inputs);
  }

  /** Gathering two batches one after the other gives the two results one after the other. */
  lemma {:induction false} KeptAppend(a: seq<string>, b: seq<string>, parse: string -> Option<Record>)
    ensures Kept(a + b, parse) == Kept(a, parse) + Kept(b, parse)
    decreases |b|
  {
    if b == [] {
      assert a + b == a;
    } else {
      var b' := b[..|b| - 1];
      assert (a + b)[..|a + b| - 1] == a + b';
      KeptAppend(a, b', parse);
    }
  }

  /** A record is in the result exactly when some non-empty input parsed to it. */
  lemma {:induction false} KeptMembership(inputs: seq<string>, parse: string -> Option<Record>, rec: Record)
    ensures rec in Kept(inputs, parse)
        <==> exists i :: 0 <= i < |inputs| && Contributes(inputs[i], parse) && parse(inputs[i]) == Some(rec)
    decreases |inputs|
  {
    if inputs != [] {
      var init := inputs[..|inputs| - 1];
      KeptMembership(init, parse, rec);
      if exists i :: 0 <= i < |init| && Contributes(init[i], parse) && parse(init[i]) == Some(rec) {
        var i :| 0 <= i < |init| && Contributes(init[i], parse) && parse(init[i]) == Some(rec);
        assert inputs[i] == init[i];
      }
      if exists i :: 0 <= i < |inputs| && Contributes(inputs[i], parse) && parse(inputs[i]) == Some(rec) {
        var i :| 0 <= i < |inputs| && Contributes(inputs[i], parse) && parse(inputs[i]) == Some(rec);
        if i < |init| { assert init[i] == inputs[i]; }
      }
    }
  }

  /** When every input contributes, the result is the inputs' records one for one, in input order. */
  lemma {:induction false} KeptAllContribute(inputs: seq<string>, parse: string -> Option<Record>)
    requires forall i :: 0 <= i < |inputs| ==> Contributes(inputs[i], parse)
    ensures |Kept(inputs, parse)| == |inputs|
    ensures forall i :: 0 <= i < |inputs| ==> Some(Kept(inputs, parse)[i]) == parse(inputs[i])
    decreases |inputs|
  {
    if inputs != [] {
      var init := inputs[..|inputs| - 1];
      assert forall i :: 0 <= i < |init| ==> init[i] == inputs[i];
      KeptAllContribute(init, parse);
    }
  }

  /** Inputs A, B, C where B fails to parse give exactly [A, C]. */
  lemma FailedInputIsSkipped(a: string, b: string, c: string, parse: string -> Option<Record>)
    requires Contributes(a, parse) && parse(b).None? && Contributes(c, parse)
    ensures Kept([a, b, c], parse) == [parse(a).value, parse(c).value]
  {
    assert [a, b, c][..2] == [a, b];
    assert [a, b][..1] == [a];
    assert [a][..0] == [];
    assert Kept([a], parse) == [parse(a).value];
    assert Kept([a, b], parse) == [parse(a).value];
  }

  /** Every inverter row of a batch carries all nineteen attributes. */
  lemma KeptInvertersComplete(inputs: seq<string>)
    ensures forall k :: 0 <= k < |Kept(inputs, ParseInverterData)| ==> Kept(inputs, ParseInverterData)[k].Keys == InverterNames
  {
    var rows := Kept(inputs, ParseInverterData);
    forall k | 0 <= k < |rows| ensures rows[k].Keys == InverterNames {
      KeptMembership(inputs, ParseInverterData, rows[k]);
    }
  }

  /** Every panel row of a batch carries the nineteen read attributes and the two derived ones. */
  lemma KeptPanelsComplete(inputs: seq<string>)
    ensures forall k :: 0 <= k < |Kept(inputs, ParseSolarPanelData)| ==> Kept(inputs, ParseSolarPanelData)[k].Keys == PanelNames + DerivedNames
  {
    var rows := Kept(inputs, ParseSolarPanelData);
    forall k | 0 <= k < |rows| ensures rows[k].Keys == PanelNames + DerivedNames {
      KeptMembership(inputs, ParseSolarPanelData, rows[k]);
    }
  }

  /** A parsed inverter or panel is never an empty dictionary, so the truthiness test drops only failed parses. */
  lemma ParsedRecordsAreTruthy(raw: string)
    ensures ParseInverterData(raw).Some? ==> Truthy(ParseInverterData(raw))
    ensures ParseSolarPanelData(raw).Some? ==> Truthy(ParseSolarPanelData(raw))
  {
    if ParseInverterData(raw).Some? {
      assert Manufacturer in ParseInverterData(raw).value;
    }
    if ParseSolarPanelData(raw).Some? {
      assert Manufacturer in ParseSolarPanelData(raw).value;
    }
  }

  /** The columns of a table built from rows: every key of every row. */
  function Columns(rows: seq<Record>): set<Attr>
    decreases |rows|
  {
    if rows == [] then {} else Columns(rows[..|rows| - 1]) + rows[|rows| - 1].Keys
  }

  /** A table has a column exactly when some row has that key. */
  lemma {:induction false} ColumnsOfRows(rows: seq<Record>, c: Attr)
    ensures c in Columns(rows) <==> exists k :: 0 <= k < |rows| && c in rows[k]
    decreases |rows|
  {
    if rows != [] {
      var init := rows[..|rows| - 1];
      ColumnsOfRows(init, c);
      if exists k :: 0 <= k < |init| && c in init[k] {
        var k :| 0 <= k < |init| && c in init[k];
        assert rows[k] == init[k];
      }
      if exists k :: 0 <= k < |rows| && c in rows[k] {
        var k :| 0 <= k < |rows| && c in rows[k];
        if k < |init| { assert init[k] == rows[k]; }
      }
    }
  }

  /** Whether the table has the column: pandas' `col in df.columns`. */
  predicate Present(col: Attr, rows: seq<Record>) {
    col in Columns(rows)
  }

  /** The declared columns that some row has, in declared order. */
  function SelectColumns(order: seq<Attr>, rows: seq<Record>): (cols: seq<Attr>)
    ensures |cols| <= |order|
    ensures forall k :: 0 <= k < |cols| ==> cols[k] in order && Present(cols[k], rows)
    decreases |order|
  {
    if order == [] then []
    else
      var init := order[..|order| - 1];
      var last := order[|order| - 1];
      assert forall c :: c in init ==> c in order;
      SelectColumns(init, rows) + (if Present(last, rows) then [last] else [])
  }

  /** A column is selected exactly when it is declared and some row has it. */
  lemma {:induction false} SelectColumnsMembership(order: seq<Attr>, rows: seq<Record>, c: Attr)
    ensures c in SelectColumns(order, rows) <==> c in order && Present(c, rows)
    decreases |order|
  {
    if order != [] {
      var init := order[..|order| - 1];
      SelectColumnsMembership(init, rows, c);
      assert c in order <==> c in init || c == order[|order| - 1];
    }
  }

  /** Selection keeps the declared order: the columns of a prefix come before those of the rest. */
  lemma {:induction false} SelectColumnsAppend(o1: seq<Attr>, o2: seq<Attr>, rows: seq<Record>)
    ensures SelectColumns(o1 + o2, rows) == SelectColumns(o1, rows) + SelectColumns(o2, rows)
    decreases |o2|
  {
    if o2 == [] {
      assert o1 + o2 == o1;
    } else {
      var o2' := o2[..|o2| - 1];
      assert (o1 + o2)[..|o1 + o2| - 1] == o1 + o2';
      SelectColumnsAppend(o1, o2', rows);
    }
  }

  /** When every declared column is present, the whole declared order is kept. */
  lemma {:induction false} SelectAllPresent(order: seq<Attr>, rows: seq<Record>)
    requires forall i :: 0 <= i < |order| ==> Present(order[i], rows)
    ensures SelectColumns(order, rows) == order
    decreases |order|
  {
    if order != [] {
      var init := order[..|order| - 1];
      assert forall i :: 0 <= i < |init| ==> init[i] == order[i];
      SelectAllPresent(init, rows);
      assert Present(order[|order| - 1], rows);
      assert init + [order[|order| - 1]] == order;
    }
  }

  /** The inverter export's declared column order. */
  const InverterColumns: seq<Attr> := [
    Manufacturer, Model, File_Name, Data_Source,
    Nominal_AC_Power_kW, Maximum_AC_Power_kW,
    Nominal_AC_current_A, Maximum_AC_current_A,
    Nominal_AC_Voltage_V, Phase, Frequency_Hz,
    Power_threshold_W, Nominal_MPP_Voltage_V,
    Min_MPP_Voltage_V, Max_DC_Voltage_V,
    Max_DC_Current_A, Total_MPPT,
    Total_String_Inputs, Night_Consumption_W
  ]

  /** The panel export's declared column order. */
  const PanelColumns: seq<Attr> := [
    Manufacturer, Model, File_Name, Data_Source,
    Nominal_Power_W, Technology, Cells_in_Series,
    Cells_in_Parallel, Maximum_Voltage_IEC, NOCT_C,
    Vmp_V, Imp_A, Voc_V, Isc_A,
    Current_Temp_Coeff, Power_Temp_Coeff,
    Module_Length, Module_Width, Module_Weight,
    Panel_Area_m2, Efficiency_percent
  ]

  /** The inverter export lists every attribute of an inverter record, and nothing else. */
  lemma InverterColumnsDeclared()
    ensures forall i :: 0 <= i < |InverterColumns| ==> InverterColumns[i] in InverterNames
    ensures forall n :: n in InverterNames ==> n in InverterColumns
  {
  }

  /**
   The inverter export lists the attributes in the order the record
   literal reads them, except that `Total_MPPT` and `Total_String_Inputs`
   trade places.
   */
  lemma InverterColumnsFollowFields()
    ensures |InverterColumns| == |InverterFields|
    ensures forall i :: 0 <= i < |InverterFields| && i != 16 && i != 17 ==> InverterColumns[i] == InverterFields[i].name
    ensures InverterColumns[16] == InverterFields[17].name && InverterColumns[17] == InverterFields[16].name
  {
  }

  /** No inverter column is listed twice. */
  lemma InverterColumnsDistinct()
    ensures forall i, j :: 0 <= i < j < |InverterColumns| ==> InverterColumns[i] != InverterColumns[j]
  {
    InverterColumnsFollowFields();
    InverterNamesDistinct();
    forall i, j | 0 <= i < j < |InverterColumns| ensures InverterColumns[i] != InverterColumns[j] {
      var p := if i == 16 then 17 else if i == 17 then 16 else i;
      var q := if j == 16 then 17 else if j == 17 then 16 else j;
      assert InverterColumns[i] == InverterFields[p].name && InverterColumns[j] == InverterFields[q].name;
      if p < q {
        assert InverterFields[p].name != InverterFields[q].name;
      } else {
        assert InverterFields[q].name != InverterFields[p].name;
      }
    }
  }

  /** The panel export lists every attribute of a panel record, read or derived, and nothing else. */
  lemma PanelColumnsDeclared()
    ensures forall i :: 0 <= i < |PanelColumns| ==> PanelColumns[i] in PanelNames + DerivedNames
    ensures forall n :: n in PanelNames + DerivedNames ==> n in PanelColumns
  {
  }

  /**
   The panel export lists the read attributes in the order the record
   literal reads them, then the area and the efficiency.
   */
  lemma PanelColumnsFollowFields()
    ensures |PanelColumns| == |PanelFields| + 2
    ensures forall i :: 0 <= i < |PanelFields| ==> PanelColumns[i] == PanelFields[i].name
    ensures PanelColumns[19] == Panel_Area_m2 && PanelColumns[20] == Efficiency_percent
  {
  }

  /** No panel column is listed twice. */
  lemma PanelColumnsDistinct()
    ensures forall i, j :: 0 <= i < j < |PanelColumns| ==> PanelColumns[i] != PanelColumns[j]
  {
    PanelColumnsFollowFields();
    PanelNamesDistinct();
    forall i, j | 0 <= i < j < |PanelColumns| ensures PanelColumns[i] != PanelColumns[j] {
      if j < 19 {
        assert PanelFields[i].name != PanelFields[j].name;
      } else if i < 19 {
        ReadNotDerived(i);
      }
    }
  }

  /** A non-empty inverter batch exports every declared column, in declared order. */
  lemma InverterExportColumns(inputs: seq<string>)
    requires Kept(inputs, ParseInverterData) != []
    ensures SelectColumns(InverterColumns, Kept(inputs, ParseInverterData)) == InverterColumns
  {
    var rows := Kept(inputs, ParseInverterData);
    KeptInvertersComplete(inputs);
    InverterColumnsDeclared();
    forall i | 0 <= i < |InverterColumns| ensures Present(InverterColumns[i], rows) {
      ColumnsOfRows(rows, InverterColumns[i]);
    }
    SelectAllPresent(InverterColumns, rows);
  }

  /** A non-empty panel batch exports every declared column, in declared order. */
  lemma PanelExportColumns(inputs: seq<string>)
    requires Kept(inputs, ParseSolarPanelData) != []
    ensures SelectColumns(PanelColumns, Kept(inputs, ParseSolarPanelData)) == PanelColumns
  {
    var rows := Kept(inputs, ParseSolarPanelData);
    KeptPanelsComplete(inputs);
    PanelColumnsDeclared();
    forall i | 0 <= i < |PanelColumns| ensures Present(PanelColumns[i], rows) {
      ColumnsOfRows(rows, PanelColumns[i]);
    }
    SelectAllPresent(PanelColumns, rows);
  }
}
