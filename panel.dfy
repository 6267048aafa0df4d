/**
 The solar panel parser: one PVsyst module line, split on ';', read
 through the panel's field table, then enriched with the module's area
 in square metres and its efficiency at 1000 W/m² irradiance.
 */
module Panel {
  import opened Wrappers
  import opened Text
  import opened Numbers
  import opened Values
  import opened Fields

  /** The panel's fields, in the order the record literal lists them. */
  const PanelFields: seq<FieldSpec> := [
    FieldSpec(Manufacturer, 1, StrippedText),
    FieldSpec(Model, 2, StrippedText),
    FieldSpec(File_Name, 3, StrippedText),
    FieldSpec(Data_Source, 4, StrippedText),
    FieldSpec(Nominal_Power_W, 7, Float),
    FieldSpec(Technology, 11, GuardedText),
    FieldSpec(Cells_in_Series, 12, Digits),
    FieldSpec(Cells_in_Parallel, 13, Digits),
    FieldSpec(Maximum_Voltage_IEC, 35, Float),
    FieldSpec(NOCT_C, 15, Float),
    FieldSpec(Vmp_V, 16, Float),
    FieldSpec(Imp_A, 17, Float),
    FieldSpec(Voc_V, 18, Float),
    FieldSpec(Isc_A, 19, Float),
    FieldSpec(Current_Temp_Coeff, 20, Float),
    FieldSpec(Power_Temp_Coeff, 22, Float),
    FieldSpec(Module_Length, 40, Float),
    FieldSpec(Module_Width, 41, Float),
    FieldSpec(Module_Weight, 43, Float)
  ]

  /** The attributes read from the line. */
  const PanelNames: set<Attr> := {
    Manufacturer, Model, File_Name, Data_Source,
    Nominal_Power_W, Technology, Cells_in_Series, Cells_in_Parallel,
    Maximum_Voltage_IEC, NOCT_C, Vmp_V, Imp_A, Voc_V, Isc_A,
    Current_Temp_Coeff, Power_Temp_Coeff,
    Module_Length, Module_Width, Module_Weight
  }

  /** The attributes computed from the others. */
  const DerivedNames: set<Attr> := {Panel_Area_m2, Efficiency_percent}

  lemma PanelNamesDistinct()
    ensures DistinctNames(PanelFields)
  {
    forall j, k | 0 <= j < k < |PanelFields| ensures PanelFields[j].name != PanelFields[k].name {
      if j < 3 { PanelNamesFirst(j, k); }
      else if j < 7 { PanelNamesSecond(j, k); }
      else if j < 12 { PanelNamesThird(j, k); }
      else { PanelNamesLast(j, k); }
    }
  }

  /** No name of the table repeats a later one (in four parts, each cheap to check). */
  lemma PanelNamesFirst(j: nat, k: nat)
    requires j < 3 && j < k < |PanelFields|
    ensures PanelFields[j].name != PanelFields[k].name
  {
  }

  lemma PanelNamesSecond(j: nat, k: nat)
    requires 3 <= j < 7 && j < k < |PanelFields|
    ensures PanelFields[j].name != PanelFields[k].name
  {
  }

  lemma PanelNamesThird(j: nat, k: nat)
    requires 7 <= j < 12 && j < k < |PanelFields|
    ensures PanelFields[j].name != PanelFields[k].name
  {
  }

  lemma PanelNamesLast(j: nat, k: nat)
    requires 12 <= j && j < k < |PanelFields|
    ensures PanelFields[j].name != PanelFields[k].name
  {
  }

  lemma PanelKeys()
    ensures NameSet(PanelFields) == PanelNames
  {
    DeclaredPanelKeys();
    ListedPanelKeys();
  }

  lemma DeclaredPanelKeys()
    ensures NameSet(PanelFields) <= PanelNames
  {
  }

  lemma ListedPanelKeys()
    ensures PanelNames <= NameSet(PanelFields)
  {
    var fs := PanelFields;
    assert fs[0].name in NameSet(fs);
    assert fs[1].name in NameSet(fs);
    assert fs[2].name in NameSet(fs);
    assert fs[3].name in NameSet(fs);
    assert fs[4].name in NameSet(fs);
    assert fs[5].name in NameSet(fs);
    assert fs[6].name in NameSet(fs);
    assert fs[7].name in NameSet(fs);
    assert fs[8].name in NameSet(fs);
    assert fs[9].name in NameSet(fs);
    assert fs[10].name in NameSet(fs);
    assert fs[11].name in NameSet(fs);
    assert fs[12].name in NameSet(fs);
    assert fs[13].name in NameSet(fs);
    assert fs[14].name in NameSet(fs);
    assert fs[15].name in NameSet(fs);
    assert fs[16].name in NameSet(fs);
    assert fs[17].name in NameSet(fs);
    assert fs[18].name in NameSet(fs);
  }

  /**
   The table entry by entry, one per line of the record literal: the
   attribute, the token position it reads and the coercion it applies.
   */
  lemma PanelLayout()
    ensures |PanelFields| == 19
    ensures PanelFields[0] == FieldSpec(Manufacturer, 1, StrippedText)
    ensures PanelFields[1] == FieldSpec(Model, 2, StrippedText)
    ensures PanelFields[2] == FieldSpec(File_Name, 3, StrippedText)
    ensures PanelFields[3] == FieldSpec(Data_Source, 4, StrippedText)
    ensures PanelFields[4] == FieldSpec(Nominal_Power_W, 7, Float)
    ensures PanelFields[5] == FieldSpec(Technology, 11, GuardedText)
    ensures PanelFields[6] == FieldSpec(Cells_in_Series, 12, Digits)
    ensures PanelFields[7] == FieldSpec(Cells_in_Parallel, 13, Digits)
    ensures PanelFields[8] == FieldSpec(Maximum_Voltage_IEC, 35, Float)
    ensures PanelFields[9] == FieldSpec(NOCT_C, 15, Float)
    ensures PanelFields[10] == FieldSpec(Vmp_V, 16, Float)
    ensures PanelFields[11] == FieldSpec(Imp_A, 17, Float)
    ensures PanelFields[12] == FieldSpec(Voc_V, 18, Float)
    ensures PanelFields[13] == FieldSpec(Isc_A, 19, Float)
    ensures PanelFields[14] == FieldSpec(Current_Temp_Coeff, 20, Float)
    ensures PanelFields[15] == FieldSpec(Power_Temp_Coeff, 22, Float)
    ensures PanelFields[16] == FieldSpec(Module_Length, 40, Float)
    ensures PanelFields[17] == FieldSpec(Module_Width, 41, Float)
    ensures PanelFields[18] == FieldSpec(Module_Weight, 43, Float)
  {
  }

  /**
   The table entries the derivation and the counts read: a narrow view of
   PanelLayout, for proofs that need only these six entries and should not
   carry all nineteen.
   */
  lemma PanelTableEntries()
    ensures PanelFields[4] == FieldSpec(Nominal_Power_W, 7, Float)
    ensures PanelFields[5] == FieldSpec(Technology, 11, GuardedText)
    ensures PanelFields[6] == FieldSpec(Cells_in_Series, 12, Digits)
    ensures PanelFields[7] == FieldSpec(Cells_in_Parallel, 13, Digits)
    ensures PanelFields[16] == FieldSpec(Module_Length, 40, Float)
    ensures PanelFields[17] == FieldSpec(Module_Width, 41, Float)
  {
  }

  /**
   The module's area in square metres from its length and width in
   millimetres, rounded to three places: within half a thousandth of the
   exact product.
   */
  function PanelArea(lengthMm: real, widthMm: real): (a: real)
    ensures -0.0005 <= a - lengthMm * widthMm / 1000000.0 <= 0.0005
  {
    assert Scale(3) == 1000.0;
    assert lengthMm / 1000.0 * (widthMm / 1000.0) == lengthMm * widthMm / 1000000.0;
    Round(lengthMm / 1000.0 * (widthMm / 1000.0), 3)
  }

  /**
   Efficiency in percent of a module of the given power and (positive)
   area at 1000 W/m², rounded to two places: within half a hundredth of
   power / (10 * area).
   */
  function EfficiencyPercent(powerW: real, areaM2: real): (e: real)
    requires areaM2 > 0.0
    ensures -0.005 <= e - powerW / (10.0 * areaM2) <= 0.005
  {
    assert Scale(2) == 100.0;
    assert powerW / (areaM2 * 1000.0) * 100.0 == powerW / (10.0 * areaM2);
    Round(powerW / (areaM2 * 1000.0) * 100.0, 2)
  }

  /**
   The derivation step: adds the area and the efficiency to a record.
   Reading a length, width or power that is missing or not a number would
   raise, which the parser turns into None.
   */
  function Derive(m: Record): (r: Option<Record>)
    ensures r.Some? ==> r.value.Keys == m.Keys + DerivedNames
    ensures r.Some? ==> forall a :: a in m && a !in DerivedNames ==> r.value[a] == m[a]
    ensures r.Some? ==> r.value[Panel_Area_m2].Num? && AsNumber(r.value[Efficiency_percent]).Some?
    ensures Lookup(m, Module_Length).Some? && Lookup(m, Module_Width).Some? && Lookup(m, Nominal_Power_W).Some?
            ==> r.Some?
  {
    match (Lookup(m, Module_Length), Lookup(m, Module_Width))
    case (Some(lengthMm), Some(widthMm)) =>
      var withArea := m[Panel_Area_m2 := Num(PanelArea(lengthMm, widthMm))];
      if PanelArea(lengthMm, widthMm) > 0.0 then
        match Lookup(withArea, Nominal_Power_W)
        case Some(powerW) =>
          Some(withArea[Efficiency_percent := Num(EfficiencyPercent(powerW, PanelArea(lengthMm, widthMm)))])
        case None => None
      else Some(withArea[Efficiency_percent := Int(0)])
    case _ => None
  }

  /**
   The derived values: the area from the record's own length and width,
   and the efficiency from its own power, or the integer 0 when the area
   is not positive.
   */
  lemma DerivedValues(m: Record)
    requires Derive(m).Some?
    ensures Lookup(m, Module_Length).Some? && Lookup(m, Module_Width).Some?
    ensures var area := PanelArea(Lookup(m, Module_Length).value, Lookup(m, Module_Width).value);
            && Derive(m).value[Panel_Area_m2] == Num(area)
            && (area > 0.0 ==>
                  (Lookup(m, Nominal_Power_W).Some?
                   && Derive(m).value[Efficiency_percent]
                        == Num(EfficiencyPercent(Lookup(m, Nominal_Power_W).value, area))))
            && (area <= 0.0 ==> Derive(m).value[Efficiency_percent] == Int(0))
  {
  }

  /** The efficiency is the integer 0 exactly when the rounded area is not positive. */
  lemma EfficiencyIntZeroIffNoArea(m: Record)
    requires Derive(m).Some?
    ensures Derive(m).value[Efficiency_percent] == Int(0) <==> Derive(m).value[Panel_Area_m2].x <= 0.0
  {
    DerivedValues(m);
  }

  /** Derived values depend on nothing but the record's length, width and power. */
  lemma DerivationIsLocal(m1: Record, m2: Record)
    requires Lookup(m1, Module_Length) == Lookup(m2, Module_Length)
    requires Lookup(m1, Module_Width) == Lookup(m2, Module_Width)
    requires Lookup(m1, Nominal_Power_W) == Lookup(m2, Nominal_Power_W)
    requires Derive(m1).Some?
    ensures Derive(m2).Some?
    ensures Derive(m2).value[Panel_Area_m2] == Derive(m1).value[Panel_Area_m2]
    ensures Derive(m2).value[Efficiency_percent] == Derive(m1).value[Efficiency_percent]
  {
    DerivedValues(m1);
  }

  /**
   Scale consistency: doubling both dimensions quadruples the area, up to
   the rounding of the two areas.
   */
  lemma DoubledDimensions(lengthMm: real, widthMm: real)
    ensures -0.0025 <= PanelArea(2.0 * lengthMm, 2.0 * widthMm) - 4.0 * PanelArea(lengthMm, widthMm) <= 0.0025
  {
    assert (2.0 * lengthMm) * (2.0 * widthMm) / 1000000.0 == 4.0 * (lengthMm * widthMm / 1000000.0);
  }

  /** The export step's column rounding (three places for the area, two for the efficiency) changes nothing. */
  lemma ExportRoundingIsNoOp(lengthMm: real, widthMm: real, powerW: real)
    ensures Round(PanelArea(lengthMm, widthMm), 3) == PanelArea(lengthMm, widthMm)
    ensures PanelArea(lengthMm, widthMm) > 0.0
            ==> Round(EfficiencyPercent(powerW, PanelArea(lengthMm, widthMm)), 2)
                == EfficiencyPercent(powerW, PanelArea(lengthMm, widthMm))
  {
    RoundIdempotent(lengthMm / 1000.0 * (widthMm / 1000.0), 3);
    if PanelArea(lengthMm, widthMm) > 0.0 {
      var area := PanelArea(lengthMm, widthMm);
      RoundIdempotent(powerW / (area * 1000.0) * 100.0, 2);
    }
  }

  /**
   One panel line: the record with every attribute read from the line and
   the two derived ones, or None when a numeric field holds text that is
   not a number or a cell count's digits hold a character `int` rejects.
   The derivation never fails on a parsed record.
   */
  function ParseSolarPanelData(raw: string): (r: Option<Record>)
    ensures r.Some? <==> WellFormed(Split(raw, ';'), PanelFields)
    ensures r.Some? ==> r.value.Keys == PanelNames + DerivedNames
  {
    PanelKeys();
    match ExtractAll(Split(raw, ';'), PanelFields)
    case None => None
    case Some(m) =>
      ParsedDimensionsAreNumbers(Split(raw, ';'));
      Derive(m)
  }

  /** Length, width and power of a parsed panel are numbers, so the derivation finds them. */
  lemma ParsedDimensionsAreNumbers(tokens: seq<string>)
    requires ExtractAll(tokens, PanelFields).Some?
    ensures var m := ExtractAll(tokens, PanelFields).value;
            Lookup(m, Module_Length).Some? && Lookup(m, Module_Width).Some? && Lookup(m, Nominal_Power_W).Some?
  {
    PanelNamesDistinct();
    PanelTableEntries();
    NumericFieldIsNumber(tokens, PanelFields, 4);
    NumericFieldIsNumber(tokens, PanelFields, 16);
    NumericFieldIsNumber(tokens, PanelFields, 17);
  }

  /** Each attribute read from the line holds what its field's policy reads from its own token. */
  lemma PanelFieldValue(raw: string, k: nat)
    requires k < |PanelFields|
    requires ParseSolarPanelData(raw).Some?
    ensures ParseSolarPanelData(raw).value[PanelFields[k].name]
         == ExtractField(Split(raw, ';'), PanelFields[k]).value
  {
    var tokens := Split(raw, ';');
    var m := ExtractAll(tokens, PanelFields).value;
    assert PanelFields[k].name in m && PanelFields[k].name !in DerivedNames by {
      ReadNotDerived(k);
    }
    assert ParseSolarPanelData(raw) == Derive(m);
    assert m[PanelFields[k].name] == ExtractField(tokens, PanelFields[k]).value by {
      PanelNamesDistinct();
      ExtractAllField(tokens, PanelFields, k);
    }
  }

  lemma ReadNotDerived(k: nat)
    requires k < |PanelFields|
    ensures PanelFields[k].name in PanelNames && PanelFields[k].name !in DerivedNames
  {
    assert PanelFields[k].name in NameSet(PanelFields);
    PanelKeys();
  }

  /**
   A cell count whose stripped token is a run of digits but which holds a
   U+001C..U+001F character passes the `isdigit` guard, and then `int`
   raises: the whole line is rejected.
   */
  lemma CountSeparatorRejects(raw: string, k: nat)
    requires k == 12 || k == 13
    requires var tokens := Split(raw, ';');
             k < |tokens| && IsDigitRun(Strip(tokens[k])) && !NoSeparator(tokens[k])
    ensures ParseSolarPanelData(raw).None?
  {
    var tokens := Split(raw, ';');
    PanelTableEntries();
    var f := if k == 12 then PanelFields[6] else PanelFields[7];
    DigitsFieldValue(tokens, f);
    assert Malformed(tokens, f);
  }

  /**
   The cell counts are the digits' value when the stripped token is a run
   of ASCII digits, and 0 otherwise; never negative.
   */
  lemma CellCounts(raw: string)
    requires ParseSolarPanelData(raw).Some?
    ensures var tokens := Split(raw, ';');
            && ParseSolarPanelData(raw).value[Cells_in_Series]
                 == Int(if 12 < |tokens| && IsDigitRun(Strip(tokens[12])) then DigitsValue(Strip(tokens[12])) else 0)
            && ParseSolarPanelData(raw).value[Cells_in_Parallel]
                 == Int(if 13 < |tokens| && IsDigitRun(Strip(tokens[13])) then DigitsValue(Strip(tokens[13])) else 0)
  {
    PanelTableEntries();
    PanelFieldValue(raw, 6);
    DigitsFieldValue(Split(raw, ';'), PanelFields[6]);
    PanelFieldValue(raw, 7);
    DigitsFieldValue(Split(raw, ';'), PanelFields[7]);
  }

  /** The technology is the stripped token 11, and "" when the line stops earlier or the token is empty. */
  lemma PanelTechnology(raw: string)
    requires ParseSolarPanelData(raw).Some?
    ensures var tokens := Split(raw, ';');
            ParseSolarPanelData(raw).value[Technology] == Str(if 11 < |tokens| then Strip(tokens[11]) else "")
  {
    PanelTableEntries();
    PanelFieldValue(raw, 5);
    TextFieldValue(Split(raw, ';'), PanelFields[5]);
  }

  /** A 1700 mm by 1000 mm module of 350 W: 1.7 m² and 20.59 %. */
  lemma DatasheetFigures()
    ensures PanelArea(1700.0, 1000.0) == 1.7
    ensures EfficiencyPercent(350.0, 1.7) == 20.59
  {
    assert Scale(3) == 1000.0 && Scale(2) == 100.0;
    assert 1700.0 / 1000.0 * (1000.0 / 1000.0) * Scale(3) == 1700.0;
    RoundHalfEvenInt(1700);
    var y := 350.0 / (1.7 * 1000.0) * 100.0 * Scale(2);
    assert y == 35000000.0 / 17000.0;
    assert 2058.0 <= y < 2059.0;
    assert y.Floor == 2058;
    assert RoundHalfEven(y) == 2059;
  }

  lemma DatasheetTokens()
    ensures IsDigitRun("350") && DigitsValue("350") == 350
    ensures IsDigitRun("1700") && DigitsValue("1700") == 1700
    ensures IsDigitRun("1000") && DigitsValue("1000") == 1000
  {
    assert "350"[..2] == "35" && "35"[..1] == "3" && "3"[..0] == "";
    assert "1700"[..3] == "170" && "170"[..2] == "17" && "17"[..1] == "1" && "1"[..0] == "";
    assert "1000"[..3] == "100" && "100"[..2] == "10" && "10"[..1] == "1";
  }

  /** The same module read from a line whose length, width and power tokens are "1700", "1000" and "350". */
  lemma DatasheetLine(raw: string)
    requires var tokens := Split(raw, ';');
             43 < |tokens| && tokens[7] == "350" && tokens[40] == "1700" && tokens[41] == "1000"
    requires ParseSolarPanelData(raw).Some?
    ensures ParseSolarPanelData(raw).value[Panel_Area_m2] == Num(1.7)
    ensures ParseSolarPanelData(raw).value[Efficiency_percent] == Num(20.59)
  {
    var tokens := Split(raw, ';');
    var m := ExtractAll(tokens, PanelFields).value;
    assert m[Nominal_Power_W] == Num(350.0) && m[Module_Length] == Num(1700.0) && m[Module_Width] == Num(1000.0) by {
      PanelTableEntries();
      PanelNamesDistinct();
      DatasheetTokens();
      DigitsFloatField(tokens, PanelFields, 4);
      DigitsFloatField(tokens, PanelFields, 16);
      DigitsFloatField(tokens, PanelFields, 17);
    }
    assert ParseSolarPanelData(raw) == Derive(m);
    DatasheetFigures();
    DerivedValues(m);
  }

  /**
   A module of 1.7 m² whose power reads 0 has a zero efficiency (the float
   0.0): a zero efficiency does not mean a zero area.
   */
  lemma ZeroPowerZeroEfficiency()
    ensures var m := map[Module_Length := Num(1700.0), Module_Width := Num(1000.0), Nominal_Power_W := Int(0)];
            && Derive(m).Some?
            && Derive(m).value[Panel_Area_m2] == Num(1.7)
            && Derive(m).value[Efficiency_percent] == Num(0.0)
  {
    var m := map[Module_Length := Num(1700.0), Module_Width := Num(1000.0), Nominal_Power_W := Int(0)];
    assert Lookup(m, Module_Length) == Some(1700.0) && Lookup(m, Module_Width) == Some(1000.0);
    assert Lookup(m, Nominal_Power_W) == Some(0.0);
    assert PanelArea(1700.0, 1000.0) == 1.7 by { DatasheetFigures(); }
    assert EfficiencyPercent(0.0, 1.7) == 0.0 by {
      RoundHalfEvenInt(0);
      assert 0.0 / (1.7 * 1000.0) * 100.0 * Scale(2) == 0.0;
    }
    DerivedValues(m);
  }

  /**
   A negative length gives a negative area, and then the efficiency is the
   integer 0 although the area is not 0.
   */
  lemma NegativeLengthZeroEfficiency()
    ensures var m := map[Module_Length := Num(-1700.0), Module_Width := Num(1000.0), Nominal_Power_W := Num(350.0)];
            && Derive(m).Some?
            && Derive(m).value[Panel_Area_m2] == Num(-1.7)
            && Derive(m).value[Efficiency_percent] == Int(0)
  {
    var m := map[Module_Length := Num(-1700.0), Module_Width := Num(1000.0), Nominal_Power_W := Num(350.0)];
    assert Lookup(m, Module_Length) == Some(-1700.0) && Lookup(m, Module_Width) == Some(1000.0);
    assert PanelArea(-1700.0, 1000.0) == -1.7 by {
      assert Scale(3) == 1000.0;
      assert -1700.0 / 1000.0 * (1000.0 / 1000.0) * Scale(3) == -1700.0;
      RoundHalfEvenInt(-1700);
    }
    DerivedValues(m);
  }
}
