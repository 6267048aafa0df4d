/**
 The inverter parser: one PVsyst inverter line, split on ';', read through
 the inverter's field table into a record of nineteen attributes, or
 rejected as a whole when one of its numeric fields does not read as a
 number.
 */
module Inverter {
  import opened Wrappers
  import opened Text
  import opened Numbers
  import opened Values
  import opened Frequency
  import opened Fields

  /** The inverter's fields, in the order the record literal lists them. */
  const InverterFields: seq<FieldSpec> := [
    FieldSpec(Manufacturer, 1, StrippedText),
    FieldSpec(Model, 2, StrippedText),
    FieldSpec(File_Name, 3, StrippedText),
    FieldSpec(Data_Source, 4, StrippedText),
    FieldSpec(Nominal_AC_Power_kW, 7, Float),
    FieldSpec(Maximum_AC_Power_kW, 8, Float),
    FieldSpec(Nominal_AC_current_A, 9, Float),
    FieldSpec(Maximum_AC_current_A, 10, Float),
    FieldSpec(Nominal_AC_Voltage_V, 11, Float),
    FieldSpec(Phase, 12, StrippedText),
    FieldSpec(Frequency_Hz, 13, Hertz),
    FieldSpec(Power_threshold_W, 17, Float),
    FieldSpec(Nominal_MPP_Voltage_V, 18, Float),
    FieldSpec(Min_MPP_Voltage_V, 19, Float),
    FieldSpec(Max_DC_Voltage_V, 20, Float),
    FieldSpec(Max_DC_Current_A, 24, Float),
    FieldSpec(Total_String_Inputs, 29, Float),
    FieldSpec(Total_MPPT, 30, Float),
    FieldSpec(Night_Consumption_W, 39, Float)
  ]

  /** The attributes every inverter record carries. */
  const InverterNames: set<Attr> := {
    Manufacturer, Model, File_Name, Data_Source,
    Nominal_AC_Power_kW, Maximum_AC_Power_kW,
    Nominal_AC_current_A, Maximum_AC_current_A,
    Nominal_AC_Voltage_V, Phase, Frequency_Hz,
    Power_threshold_W, Nominal_MPP_Voltage_V,
    Min_MPP_Voltage_V, Max_DC_Voltage_V, Max_DC_Current_A,
    Total_String_Inputs, Total_MPPT, Night_Consumption_W
  }

  lemma InverterNamesDistinct()
    ensures DistinctNames(InverterFields)
  {
    forall j, k | 0 <= j < k < |InverterFields| ensures InverterFields[j].name != InverterFields[k].name {
      if j < 3 { InverterNamesFirst(j, k); }
      else if j < 7 { InverterNamesSecond(j, k); }
      else if j < 12 { InverterNamesThird(j, k); }
      else { InverterNamesLast(j, k); }
    }
  }

  /** No name of the table repeats a later one (in four parts, each cheap to check). */
  lemma InverterNamesFirst(j: nat, k: nat)
    requires j < 3 && j < k < |InverterFields|
    ensures InverterFields[j].name != InverterFields[k].name
  {
  }

  lemma InverterNamesSecond(j: nat, k: nat)
    requires 3 <= j < 7 && j < k < |InverterFields|
    ensures InverterFields[j].name != InverterFields[k].name
  {
  }

  lemma InverterNamesThird(j: nat, k: nat)
    requires 7 <= j < 12 && j < k < |InverterFields|
    ensures InverterFields[j].name != InverterFields[k].name
  {
  }

  lemma InverterNamesLast(j: nat, k: nat)
    requires 12 <= j && j < k < |InverterFields|
    ensures InverterFields[j].name != InverterFields[k].name
  {
  }

  lemma InverterKeys()
    ensures NameSet(InverterFields) == InverterNames
  {
    DeclaredInverterKeys();
    ListedInverterKeys();
  }

  lemma DeclaredInverterKeys()
    ensures NameSet(InverterFields) <= InverterNames
  {
  }

  lemma ListedInverterKeys()
    ensures InverterNames <= NameSet(InverterFields)
  {
    var fs := InverterFields;
    assert fs[0].name in NameSet(fs);
    assert fs[1].name in NameSet(fs);
    assert fs[2].name in NameSet(fs);
    assert fs[3].name in NameSet(fs);
    assert fs[4].name in NameSet(fs);
    assert fs[5].name in NameSet(fs);
    assert fs[6].name in NameSet(fs);
    assert fs[7].name in NameSet(fs);
    assert fs[8].name in NameSet(fs);
    assert fs[9].name in NameSet(fs);
    assert fs[10].name in NameSet(fs);
    assert fs[11].name in NameSet(fs);
    assert fs[12].name in NameSet(fs);
    assert fs[13].name in NameSet(fs);
    assert fs[14].name in NameSet(fs);
    assert fs[15].name in NameSet(fs);
    assert fs[16].name in NameSet(fs);
    assert fs[17].name in NameSet(fs);
    assert fs[18].name in NameSet(fs);
  }

  /**
   The table entry by entry, one per line of the record literal: the
   attribute, the token position it reads and the coercion it applies.
   */
  lemma InverterLayout()
    ensures |InverterFields| == 19
    ensures InverterFields[0] == FieldSpec(Manufacturer, 1, StrippedText)
    ensures InverterFields[1] == FieldSpec(Model, 2, StrippedText)
    ensures InverterFields[2] == FieldSpec(File_Name, 3, StrippedText)
    ensures InverterFields[3] == FieldSpec(Data_Source, 4, StrippedText)
    ensures InverterFields[4] == FieldSpec(Nominal_AC_Power_kW, 7, Float)
    ensures InverterFields[5] == FieldSpec(Maximum_AC_Power_kW, 8, Float)
    ensures InverterFields[6] == FieldSpec(Nominal_AC_current_A, 9, Float)
    ensures InverterFields[7] == FieldSpec(Maximum_AC_current_A, 10, Float)
    ensures InverterFields[8] == FieldSpec(Nominal_AC_Voltage_V, 11, Float)
    ensures InverterFields[9] == FieldSpec(Phase, 12, StrippedText)
    ensures InverterFields[10] == FieldSpec(Frequency_Hz, 13, Hertz)
    ensures InverterFields[11] == FieldSpec(Power_threshold_W, 17, Float)
    ensures InverterFields[12] == FieldSpec(Nominal_MPP_Voltage_V, 18, Float)
    ensures InverterFields[13] == FieldSpec(Min_MPP_Voltage_V, 19, Float)
    ensures InverterFields[14] == FieldSpec(Max_DC_Voltage_V, 20, Float)
    ensures InverterFields[15] == FieldSpec(Max_DC_Current_A, 24, Float)
    ensures InverterFields[16] == FieldSpec(Total_String_Inputs, 29, Float)
    ensures InverterFields[17] == FieldSpec(Total_MPPT, 30, Float)
    ensures InverterFields[18] == FieldSpec(Night_Consumption_W, 39, Float)
  {
  }

  /**
   The phase and frequency entries of the table: a narrow view of
   InverterLayout, for proofs that need only these two entries and should
   not carry all nineteen.
   */
  lemma InverterPhaseAndFrequency()
    ensures InverterFields[9] == FieldSpec(Phase, 12, StrippedText)
    ensures InverterFields[10] == FieldSpec(Frequency_Hz, 13, Hertz)
  {
  }

  /**
   The inverter table has no counts; its numeric fields all lie past the
   data source (position 4), and none of them is the frequency's position 13.
   */
  lemma InverterFalliblePositions()
    ensures forall k :: 0 <= k < |InverterFields| && Fallible(InverterFields[k].kind)
              ==> InverterFields[k].kind == Float && InverterFields[k].index >= 5 && InverterFields[k].index != 13
  {
  }

  /**
   One inverter line: the record with every attribute, or None when a
   numeric field holds text that is not a number (`float` rejects it,
   including any U+001C..U+001F character that `strip()` would remove).
   */
  function ParseInverterData(raw: string): (r: Option<Record>)
    ensures r.Some? <==> WellFormed(Split(raw, ';'), InverterFields)
    ensures r.Some? ==> r.value.Keys == InverterNames
  {
    InverterKeys();
    ExtractAll(Split(raw, ';'), InverterFields)
  }

  /** Each attribute of a parsed inverter holds what its field's policy reads from its own token. */
  lemma InverterFieldValue(raw: string, k: nat)
    requires k < |InverterFields|
    requires ParseInverterData(raw).Some?
    ensures ParseInverterData(raw).value[InverterFields[k].name]
         == ExtractField(Split(raw, ';'), InverterFields[k]).value
  {
    InverterNamesDistinct();
    ExtractAllField(Split(raw, ';'), InverterFields, k);
  }

  /**
   A line of at most five tokens (nothing past the data source) is never
   rejected: every numeric attribute is 0, the phase is "" and the
   frequency is 0.
   */
  lemma ShortInverterLine(raw: string)
    requires Count(raw, ';') <= 4
    ensures ParseInverterData(raw).Some?
    ensures forall k :: 0 <= k < |InverterFields| && InverterFields[k].kind == Float
              ==> ParseInverterData(raw).value[InverterFields[k].name] == Int(0)
    ensures ParseInverterData(raw).value[Phase] == Str("")
    ensures ParseInverterData(raw).value[Frequency_Hz] == Int(0)
  {
    var tokens := Split(raw, ';');
    SplitCount(raw, ';');
    InverterFalliblePositions();
    ShortLineSucceeds(tokens, InverterFields);
    forall k | 0 <= k < |InverterFields| && InverterFields[k].kind == Float
      ensures ParseInverterData(raw).value[InverterFields[k].name] == Int(0)
    {
      InverterFieldValue(raw, k);
    }
    InverterPhaseAndFrequency();
    InverterFieldValue(raw, 9);
    InverterFieldValue(raw, 10);
  }

  /**
   A numeric token that is not blank but holds a U+001C..U+001F character
   passes the guard, and then `float` raises: the whole line is rejected,
   even though `strip()` would have removed the character.
   */
  lemma InverterSeparatorRejects(raw: string, k: nat)
    requires k < |InverterFields| && InverterFields[k].kind == Float
    requires var tokens := Split(raw, ';');
             && InverterFields[k].index < |tokens|
             && Strip(tokens[InverterFields[k].index]) != ""
             && !NoSeparator(tokens[InverterFields[k].index])
    ensures ParseInverterData(raw).None?
  {
    assert Malformed(Split(raw, ';'), InverterFields[k]);
  }

  /**
   The frequency token never decides whether an inverter is accepted: any
   text at position 13 leaves the outcome as it was.
   */
  lemma FrequencyNeverRejects(raw: string, t: string)
    requires 13 < |Split(raw, ';')|
    ensures ExtractAll(Split(raw, ';')[13 := t], InverterFields).Some? <==> ParseInverterData(raw).Some?
  {
    InverterFalliblePositions();
    OnlyFallibleTokensDecide(Split(raw, ';'), InverterFields, 13, t);
  }

  /** The frequency attribute is the normalised token 13, or 0 when the line stops earlier. */
  lemma InverterFrequency(raw: string)
    requires ParseInverterData(raw).Some?
    ensures var tokens := Split(raw, ';');
            ParseInverterData(raw).value[Frequency_Hz]
              == if 13 < |tokens| then ParseFrequency(tokens[13]) else Int(0)
  {
    var tokens := Split(raw, ';');
    assert InverterFields[10] == FieldSpec(Frequency_Hz, 13, Hertz) by { InverterPhaseAndFrequency(); }
    InverterFieldValue(raw, 10);
    HertzFieldValue(tokens, InverterFields[10]);
  }

  /** A device rated "50/60 Hz" is recorded as a 50 Hz inverter. */
  lemma DualRatedInverter(raw: string)
    requires 13 < |Split(raw, ';')| && Contains(Split(raw, ';')[13], "50/60")
    requires ParseInverterData(raw).Some?
    ensures ParseInverterData(raw).value[Frequency_Hz] == Int(50)
  {
    InverterFrequency(raw);
    DualRatingIsFifty(Split(raw, ';')[13]);
  }
}
