/**
 The positional extraction engine both parsers share. A parser is a table
 of field declarations (attribute name, token position, coercion policy);
 a raw line, split on ';', is read field by field, and the record is
 either complete or rejected as a whole.
 */
module Fields {
  import opened Wrappers
  import opened Text
  import opened Numbers
  import opened Values
  import opened Frequency

  /**
   The coercion policy of a field:
   StrippedText  `str(tok).strip()`, "" when the position is absent;
   GuardedText   the same, but "" also when the token is empty;
   Float         `float(tok)`, 0 when absent or blank, the record fails when malformed;
   Digits        `int(tok)` when the stripped token is all digits, 0 otherwise;
                 the record fails when `int` still raises;
   Hertz         the frequency normaliser, 0 when absent.
   */
  datatype Kind = StrippedText | GuardedText | Float | Digits | Hertz

  datatype FieldSpec = FieldSpec(name: Attr, index: nat, kind: Kind)

  /** The value a field takes when its position lies beyond the end of the line. */
  function Default(k: Kind): Value {
    match k
    case StrippedText => Str("")
    case GuardedText => Str("")
    case _ => Int(0)
  }

  /** The values a field of each kind can hold. */
  predicate Fits(v: Value, k: Kind) {
    match k
    case StrippedText => v.Str?
    case GuardedText => v.Str?
    case Float => v.Num? || v == Int(0)
    case Digits => v.Int? && v.i >= 0
    case Hertz => AsNumber(v).Some?
  }

  /** The kinds whose conversion can raise. */
  predicate Fallible(k: Kind) {
    k == Float || k == Digits
  }

  /**
   The only ways a field fails: a float field whose token is present, not
   blank, and not a number; or a count whose token passes the digits guard
   but that `int` still rejects.
   */
  predicate Malformed(tokens: seq<string>, f: FieldSpec) {
    && f.index < |tokens|
    && (|| (f.kind == Float && Strip(tokens[f.index]) != "" && PyFloat(tokens[f.index]).None?)
        || (&& f.kind == Digits && tokens[f.index] != "" && IsDigitRun(Strip(tokens[f.index]))
            && PyInt(tokens[f.index]).None?))
  }

  /**
   A field fails exactly when the source's guard lets its token through
   (for a float: the position exists, the token is not empty, and it is
   not all whitespace; for a count: the position exists, the token is not
   empty, and its stripped form is all digits) and the conversion then
   raises on it. Text and frequency fields never fail.
   */
  lemma MalformedIsGuardedFailure(tokens: seq<string>, f: FieldSpec)
    ensures Malformed(tokens, f)
        <==> && f.index < |tokens|
             && tokens[f.index] != ""
             && (|| (f.kind == Float && !AllSpace(tokens[f.index]) && PyFloat(tokens[f.index]).None?)
                 || (f.kind == Digits && IsDigitRun(Strip(tokens[f.index])) && PyInt(tokens[f.index]).None?))
    ensures Malformed(tokens, f) ==> Fallible(f.kind)
  {
    if f.index < |tokens| {
      StripEmptyIffAllSpace(tokens[f.index]);
    }
  }

  /**
   A token that passes the digits guard converts under `int` to the value
   of its digits, unless it holds a U+001C..U+001F character, which
   `strip()` removed for the guard but `int` does not accept.
   */
  lemma DigitTokenConverts(tok: string)
    requires IsDigitRun(Strip(tok))
    ensures PyInt(tok) == if NoSeparator(tok) then Some(DigitsValue(Strip(tok)) as int) else None
  {
    var t := Strip(tok);
    assert IsDigit(t[0]);
  }

  /** One field of one line, under the field's policy. */
  function ExtractField(tokens: seq<string>, f: FieldSpec): (r: Option<Value>)
    ensures f.index >= |tokens| ==> r == Some(Default(f.kind))
    ensures r.None? <==> Malformed(tokens, f)
    ensures r.Some? ==> Fits(r.value, f.kind)
  {
    var present := f.index < |tokens|;
    match f.kind
    case StrippedText => Some(Str(if present then Strip(tokens[f.index]) else ""))
    case GuardedText => Some(Str(if present && tokens[f.index] != "" then Strip(tokens[f.index]) else ""))
    case Float =>
      if present && tokens[f.index] != "" && Strip(tokens[f.index]) != "" then
        match PyFloat(tokens[f.index])
        case Some(x) => Some(Num(x))
        case None => None
      else Some(Int(0))
    case Digits =>
      if present && tokens[f.index] != "" && IsDigitRun(Strip(tokens[f.index])) then
        DigitTokenConverts(tokens[f.index]);
        match PyInt(tokens[f.index])
        case Some(n) => Some(Int(n))
        case None => None
      else Some(Int(0))
    case Hertz => Some(if present then ParseFrequency(tokens[f.index]) else Int(0))
  }

  /** The attribute names a table declares. */
  function NameSet(fs: seq<FieldSpec>): set<Attr> {
    set k | 0 <= k < |fs| :: fs[k].name
  }

  predicate DistinctNames(fs: seq<FieldSpec>) {
    forall j, k :: 0 <= j < k < |fs| ==> fs[j].name != fs[k].name
  }

  lemma NameSetSnoc(fs: seq<FieldSpec>)
    requires fs != []
    ensures NameSet(fs) == NameSet(fs[..|fs| - 1]) + {fs[|fs| - 1].name}
  {
    var init := fs[..|fs| - 1];
    forall n | n in NameSet(fs) ensures n in NameSet(init) + {fs[|fs| - 1].name} {
      var k :| 0 <= k < |fs| && fs[k].name == n;
      if k < |fs| - 1 { assert init[k] == fs[k]; }
    }
    forall n | n in NameSet(init) ensures n in NameSet(fs) {
      var k :| 0 <= k < |init| && init[k].name == n;
      assert fs[k] == init[k];
    }
  }

  predicate WellFormed(tokens: seq<string>, fs: seq<FieldSpec>) {
    forall k :: 0 <= k < |fs| ==> !Malformed(tokens, fs[k])
  }

  lemma WellFormedSnoc(tokens: seq<string>, fs: seq<FieldSpec>)
    requires fs != []
    ensures WellFormed(tokens, fs)
        <==> WellFormed(tokens, fs[..|fs| - 1]) && !Malformed(tokens, fs[|fs| - 1])
  {
    var init := fs[..|fs| - 1];
    if WellFormed(tokens, init) && !Malformed(tokens, fs[|fs| - 1]) {
      forall k | 0 <= k < |fs| ensures !Malformed(tokens, fs[k]) {
        if k < |init| { assert init[k] == fs[k]; }
      }
    }
    if WellFormed(tokens, fs) {
      forall k | 0 <= k < |init| ensures !Malformed(tokens, init[k]) {
        assert init[k] == fs[k];
      }
    }
  }

  /**
   Every field of a table, as one dictionary literal evaluates: all keys
   present, or no record at all.
   */
  function ExtractAll(tokens: seq<string>, fs: seq<FieldSpec>): (r: Option<Record>)
    ensures r.Some? <==> WellFormed(tokens, fs)
    ensures r.Some? ==> r.value.Keys == NameSet(fs)
    decreases |fs|
  {
    if fs == [] then Some(map[])
    else
      NameSetSnoc(fs);
      WellFormedSnoc(tokens, fs);
      match (ExtractAll(tokens, fs[..|fs| - 1]), ExtractField(tokens, fs[|fs| - 1]))
      case (Some(m), Some(v)) => Some(m[fs[|fs| - 1].name := v])
      case _ => None
  }

  /** In a table without repeated names, each attribute holds its own field's value. */
  lemma {:induction false} ExtractAllField(tokens: seq<string>, fs: seq<FieldSpec>, k: nat)
    requires DistinctNames(fs) && k < |fs|
    requires ExtractAll(tokens, fs).Some?
    ensures ExtractAll(tokens, fs).value[fs[k].name] == ExtractField(tokens, fs[k]).value
    decreases |fs|
  {
    var init := fs[..|fs| - 1];
    ExtractAllSnoc(tokens, fs);
    if k < |fs| - 1 {
      DistinctInit(fs, k);
      ExtractAllField(tokens, init, k);
    }
  }

  /** Dropping the last field keeps the names distinct, and no earlier field shares its name. */
  lemma DistinctInit(fs: seq<FieldSpec>, k: nat)
    requires DistinctNames(fs) && k < |fs| - 1
    ensures DistinctNames(fs[..|fs| - 1])
    ensures fs[..|fs| - 1][k] == fs[k] && fs[k].name != fs[|fs| - 1].name
  {
  }

  /** A produced record is the record of all but the last field, with the last field's value added. */
  lemma ExtractAllSnoc(tokens: seq<string>, fs: seq<FieldSpec>)
    requires fs != [] && ExtractAll(tokens, fs).Some?
    ensures ExtractAll(tokens, fs[..|fs| - 1]).Some? && ExtractField(tokens, fs[|fs| - 1]).Some?
    ensures ExtractAll(tokens, fs).value
         == ExtractAll(tokens, fs[..|fs| - 1]).value[fs[|fs| - 1].name := ExtractField(tokens, fs[|fs| - 1]).value]
  {
  }

  /** A numeric field of a record that was produced always holds a number. */
  lemma NumericFieldIsNumber(tokens: seq<string>, fs: seq<FieldSpec>, k: nat)
    requires DistinctNames(fs) && k < |fs| && fs[k].kind != StrippedText && fs[k].kind != GuardedText
    requires ExtractAll(tokens, fs).Some?
    ensures Lookup(ExtractAll(tokens, fs).value, fs[k].name).Some?
  {
    ExtractAllField(tokens, fs, k);
  }

  /** A field whose position lies past the end of the line takes its default, and parsing goes on. */
  lemma AbsentFieldDefaults(tokens: seq<string>, fs: seq<FieldSpec>, k: nat)
    requires DistinctNames(fs) && k < |fs| && fs[k].index >= |tokens|
    requires ExtractAll(tokens, fs).Some?
    ensures ExtractAll(tokens, fs).value[fs[k].name] == Default(fs[k].kind)
  {
    ExtractAllField(tokens, fs, k);
  }

  /** A float field whose token is blank or whitespace reads as 0 and never fails. */
  lemma BlankFloatIsZero(tokens: seq<string>, f: FieldSpec)
    requires f.kind == Float && f.index < |tokens| && AllSpace(tokens[f.index])
    ensures ExtractField(tokens, f) == Some(Int(0))
  {
    StripEmptyIffAllSpace(tokens[f.index]);
  }

  /** A float field with a readable token holds what `float` reads. */
  lemma FloatFieldValue(tokens: seq<string>, f: FieldSpec)
    requires f.kind == Float && f.index < |tokens| && PyFloat(tokens[f.index]).Some?
    ensures ExtractField(tokens, f) == Some(Num(PyFloat(tokens[f.index]).value))
  {
  }

  /** A float field whose token is a run of digits holds the number the digits denote. */
  lemma DigitsFloatField(tokens: seq<string>, fs: seq<FieldSpec>, k: nat)
    requires DistinctNames(fs) && k < |fs| && fs[k].kind == Float
    requires fs[k].index < |tokens| && IsDigitRun(tokens[fs[k].index])
    requires ExtractAll(tokens, fs).Some?
    ensures ExtractAll(tokens, fs).value[fs[k].name] == Num(DigitsValue(tokens[fs[k].index]) as real)
  {
    DigitRunParses(tokens[fs[k].index]);
    FloatFieldValue(tokens, fs[k]);
    ExtractAllField(tokens, fs, k);
  }

  /** A text field holds its token stripped; an empty or absent token gives "". */
  lemma TextFieldValue(tokens: seq<string>, f: FieldSpec)
    requires f.kind == StrippedText || f.kind == GuardedText
    ensures ExtractField(tokens, f) == Some(Str(if f.index < |tokens| then Strip(tokens[f.index]) else ""))
  {
    if f.kind == GuardedText && f.index < |tokens| && tokens[f.index] == "" {
      assert TrimLeft("") == "";
    }
  }

  /** A frequency field holds the normalised token, or 0 when the position is absent. */
  lemma HertzFieldValue(tokens: seq<string>, f: FieldSpec)
    requires f.kind == Hertz
    ensures ExtractField(tokens, f) == Some(if f.index < |tokens| then ParseFrequency(tokens[f.index]) else Int(0))
  {
  }

  /**
   A count holds the digits' value when the stripped token is a run of
   digits, and 0 otherwise; a digit run that also holds a U+001C..U+001F
   character fails the field.
   */
  lemma DigitsFieldValue(tokens: seq<string>, f: FieldSpec)
    requires f.kind == Digits
    ensures ExtractField(tokens, f)
         == if f.index < |tokens| && IsDigitRun(Strip(tokens[f.index])) then
              if NoSeparator(tokens[f.index]) then Some(Int(DigitsValue(Strip(tokens[f.index])))) else None
            else Some(Int(0))
  {
    if f.index < |tokens| && IsDigitRun(Strip(tokens[f.index])) {
      DigitTokenConverts(tokens[f.index]);
    }
  }

  /**
   Only float fields and counts can fail, so a token that none of them
   reads never decides whether the record is produced.
   */
  lemma OnlyFallibleTokensDecide(tokens: seq<string>, fs: seq<FieldSpec>, i: nat, t: string)
    requires i < |tokens|
    requires forall k :: 0 <= k < |fs| && Fallible(fs[k].kind) ==> fs[k].index != i
    ensures ExtractAll(tokens[i := t], fs).Some? <==> ExtractAll(tokens, fs).Some?
  {
    var tokens' := tokens[i := t];
    forall k | 0 <= k < |fs| ensures Malformed(tokens', fs[k]) <==> Malformed(tokens, fs[k]) {
      if Fallible(fs[k].kind) && fs[k].index < |tokens| {
        assert tokens'[fs[k].index] == tokens[fs[k].index];
      }
    }
  }

  /** A line too short to reach any float field or count always yields a record. */
  lemma ShortLineSucceeds(tokens: seq<string>, fs: seq<FieldSpec>)
    requires forall k :: 0 <= k < |fs| && Fallible(fs[k].kind) ==> fs[k].index >= |tokens|
    ensures ExtractAll(tokens, fs).Some?
  {
  }
}
