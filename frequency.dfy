/**
 The lenient normaliser an inverter's grid frequency goes through: a
 dual rating "50/60" reads as 50, a unit "Hz" in any case is dropped, and
 text that is still not a number reads as 0. It never rejects a record.
 */
module Frequency {
  import opened Wrappers
  import opened Text
  import opened Numbers
  import opened Values

  /** The normalised frequency of one raw token. */
  function ParseFrequency(raw: string): (v: Value)
    ensures AsNumber(v).Some?
  {
    if raw == "" then Int(0) else FrequencyOf(Lower(Strip(raw)))
  }

  /** The same, once the token has been stripped and lower-cased. */
  function FrequencyOf(t: string): (v: Value)
    ensures AsNumber(v).Some?
  {
    if Contains(t, "50/60") then Int(50)
    else
      match PyFloat(Strip(RemoveAll(t, "hz")))
      case Some(x) => Num(x)
      case None => Int(0)
  }

  /** Any token that mentions "50/60", whatever surrounds it, is a 50 Hz device. */
  lemma DualRatingIsFifty(raw: string)
    requires Contains(raw, "50/60")
    ensures ParseFrequency(raw) == Int(50)
  {
    var pat := "50/60";
    assert NoSpace(pat);
    assert raw != "" by {
      var i: nat :| i <= |raw| && OccursAt(raw, pat, i);
    }
    ContainsStrip(raw, pat);
    ContainsLower(Strip(raw), pat);
  }

  /** Text that is blank or whitespace only normalises to 0. */
  lemma BlankIsZero(raw: string)
    requires AllSpace(raw)
    ensures ParseFrequency(raw) == Int(0)
  {
    if raw != "" {
      StripEmptyIffAllSpace(raw);
      assert Lower(Strip(raw)) == "";
      assert !Contains("", "50/60");
    }
  }

  /** No occurrence of a pattern can fall in text that lacks one of the pattern's characters. */
  lemma AbsentCharNoMatch(s: string, pat: string, k: nat)
    requires k < |pat| && pat[k] !in s
    ensures !Contains(s, pat)
  {
    forall i: nat | i <= |s| ensures !OccursAt(s, pat, i) {
      if i + |pat| <= |s| {
        assert s[i..i + |pat|][k] in s;
      }
    }
  }

  lemma DigitNotSpace(c: char)
    requires IsDigit(c)
    ensures !IsSpace(c) && LowerChar(c) == c && c != 'h' && c != '/'
  {
  }

  lemma SpaceNotLetter(c: char)
    requires IsSpace(c)
    ensures LowerChar(c) == c && c != 'h' && c != '/'
  {
  }

  /** A run of digits is unchanged by `strip()` and `lower()`. */
  lemma DigitsUnchanged(d: string)
    requires IsDigitRun(d)
    ensures Strip(d) == d && Lower(d) == d
  {
    DigitNotSpace(d[0]);
    DigitNotSpace(d[|d| - 1]);
    StripNoSpaceEnds(d);
    forall i | 0 <= i < |d| ensures LowerChar(d[i]) == d[i] {
      DigitNotSpace(d[i]);
    }
  }

  lemma TrimRightSpaces(d: string, sp: string)
    requires d != [] && !IsSpace(d[|d| - 1]) && AllSpace(sp)
    ensures TrimRight(d + sp) == d
    decreases |sp|
  {
    if sp == [] {
      assert d + sp == d;
    } else {
      assert (d + sp)[..|d + sp| - 1] == d + sp[..|sp| - 1];
      TrimRightSpaces(d, sp[..|sp| - 1]);
    }
  }

  /** An already-normalised number of hertz, "50" or "60", reads as itself. */
  lemma DigitsReadAsThemselves(d: string)
    requires IsDigitRun(d)
    ensures ParseFrequency(d) == Num(DigitsValue(d) as real)
  {
    assert FrequencyOf(d) == Num(DigitsValue(d) as real) by {
      assert '/' !in d && 'h' !in d by {
        forall i | 0 <= i < |d| ensures d[i] != '/' && d[i] != 'h' { DigitNotSpace(d[i]); }
      }
      AbsentCharNoMatch(d, "50/60", 2);
      RemoveAllNoop(d, "hz");
      DigitsUnchanged(d);
      DigitRunParses(d);
    }
    DigitsUnchanged(d);
  }

  /** Digits and spaces hold neither 'h' nor '/' and have no upper-case letters. */
  lemma DigitsThenSpaces(d: string, sp: string)
    requires IsDigitRun(d) && AllSpace(sp)
    ensures forall i :: 0 <= i < |d + sp| ==> (d + sp)[i] != 'h' && (d + sp)[i] != '/'
    ensures Lower(d + sp) == d + sp
  {
    forall i | 0 <= i < |d + sp|
      ensures (d + sp)[i] != 'h' && (d + sp)[i] != '/' && LowerChar((d + sp)[i]) == (d + sp)[i]
    {
      if i < |d| { DigitNotSpace(d[i]); } else { SpaceNotLetter(sp[i - |d|]); }
    }
  }

  /** Normalising "60 Hz" gives "60 hz": nothing to strip, and only the unit changes case. */
  lemma NormaliseWithUnit(d: string, sp: string, unit: string)
    requires IsDigitRun(d) && AllSpace(sp) && Lower(unit) == "hz"
    ensures Lower(Strip(d + sp + unit)) == d + sp + "hz"
  {
    var raw := d + sp + unit;
    DigitNotSpace(d[0]);
    assert raw[0] == d[0];
    assert raw[|raw| - 1] == unit[1];
    assert !IsSpace(unit[1]) by { assert LowerChar(unit[1]) == 'z'; }
    StripNoSpaceEnds(raw);
    DigitsThenSpaces(d, sp);
    assert Lower(raw) == Lower(d + sp) + Lower(unit);
  }

  /** Dropping the unit and stripping leaves the digits. */
  lemma UnitlessDigits(d: string, sp: string)
    requires IsDigitRun(d) && AllSpace(sp)
    ensures Strip(RemoveAll(d + sp + "hz", "hz")) == d
  {
    DigitsThenSpaces(d, sp);
    assert 'h' !in d + sp;
    RemoveAllSkipsPrefix(d + sp, "hz", "hz");
    assert RemoveAll("hz", "hz") == "";
    assert d + sp + "" == d + sp;
    DigitNotSpace(d[0]);
    DigitNotSpace(d[|d| - 1]);
    TrimRightSpaces(d, sp);
    assert (d + sp)[0] == d[0];
    assert TrimLeft(d + sp) == d + sp;
  }

  /**
   Digits followed by optional spaces and a unit spelled "hz" in any case
   ("60Hz", "50 HZ") read as the digits' value.
   */
  lemma UnitIsDropped(d: string, sp: string, unit: string)
    requires IsDigitRun(d) && AllSpace(sp) && Lower(unit) == "hz"
    ensures ParseFrequency(d + sp + unit) == Num(DigitsValue(d) as real)
  {
    var t := d + sp + "hz";
    assert Lower(Strip(d + sp + unit)) == t by { NormaliseWithUnit(d, sp, unit); }
    assert !Contains(t, "50/60") by {
      DigitsThenSpaces(d, sp);
      forall i | 0 <= i < |t| ensures t[i] != '/' {
        if i < |d + sp| { assert t[i] == (d + sp)[i]; }
      }
      AbsentCharNoMatch(t, "50/60", 2);
    }
    assert PyFloat(Strip(RemoveAll(t, "hz"))) == Some(DigitsValue(d) as real) by {
      UnitlessDigits(d, sp);
      DigitRunParses(d);
    }
    assert d + sp + unit != "";
  }
}
