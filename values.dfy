/**
 The values a parsed specification holds. Python keeps `int` and `float`
 apart (a missing float field defaults to the integer `0`, a dual-rated
 frequency is the integer `50`), so the model does too.
 */
module Values {
  import opened Wrappers

  datatype Value = Str(s: string) | Int(i: int) | Num(x: real)

  /**
   The attribute names the two parsers write, inverter and panel alike; a
   name is a dictionary key of a record and a column of the exported table.
   */
  datatype Attr =
    | Manufacturer | Model | File_Name | Data_Source
    // inverter ratings
    | Nominal_AC_Power_kW | Maximum_AC_Power_kW | Nominal_AC_current_A | Maximum_AC_current_A
    | Nominal_AC_Voltage_V | Phase | Frequency_Hz | Power_threshold_W | Nominal_MPP_Voltage_V
    | Min_MPP_Voltage_V | Max_DC_Voltage_V | Max_DC_Current_A | Total_String_Inputs
    | Total_MPPT | Night_Consumption_W
    // panel ratings
    | Nominal_Power_W | Technology | Cells_in_Series | Cells_in_Parallel | Maximum_Voltage_IEC
    | NOCT_C | Vmp_V | Imp_A | Voc_V | Isc_A | Current_Temp_Coeff | Power_Temp_Coeff
    | Module_Length | Module_Width | Module_Weight
    // derived panel attributes
    | Panel_Area_m2 | Efficiency_percent

  /** A specification record: attribute name to value, as the parser's dictionaries. */
  type Record = map<Attr, Value>

  /** The number a value stands for in Python arithmetic; text is not a number. */
  function AsNumber(v: Value): (r: Option<real>)
    ensures r.Some? <==> !v.Str?
  {
    match v
    case Str(_) => None
    case Int(i) => Some(i as real)
    case Num(x) => Some(x)
  }

  /** `record[key]` used as a number: fails when the key is missing or holds text. */
  function Lookup(m: Record, key: Attr): (r: Option<real>)
    ensures r.Some? <==> key in m && !m[key].Str?
  {
    if key in m then AsNumber(m[key]) else None
  }
}
