/**
 The string operations the parser relies on, with Python's `str` semantics:
 `split(';')`, `strip()`, `lower()`, `in`, `replace(pat, '')` and `isdigit()`.
 */
module Text {

  /** Python's whitespace for `str.strip()`: the characters for which `str.isspace()` holds. */
  predicate IsSpace(c: char) {
    || c == ' '
    || ('\t' <= c <= '\r')
    || ('\U{1c}' <= c <= '\U{1f}')
    || c == '\U{85}' || c == '\U{a0}' || c == '\U{1680}'
    || ('\U{2000}' <= c <= '\U{200a}')
    || c == '\U{2028}' || c == '\U{2029}' || c == '\U{202f}' || c == '\U{205f}' || c == '\U{3000}'
  }

  predicate AllSpace(s: string) {
    forall i :: 0 <= i < |s| ==> IsSpace(s[i])
  }

  /** `s.lstrip()`: the longest suffix of `s` that does not start with whitespace. */
  function TrimLeft(s: string): (r: string)
    ensures |r| <= |s| && r == s[|s| - |r|..]
    ensures AllSpace(s[..|s| - |r|])
    ensures r == [] || !IsSpace(r[0])
    decreases |s|
  {
    if s != [] && IsSpace(s[0]) then
      var r := TrimLeft(s[1..]);
      DropSpaceStep(s, r);
      r
    else
      assert s[|s| - |s|..] == s;
      s
  }

  /** A leading space in front of a trimmed suffix joins the removed part. */
  lemma DropSpaceStep(s: string, r: string)
    requires s != [] && IsSpace(s[0])
    requires |r| <= |s| - 1 && r == s[1..][|s| - 1 - |r|..] && AllSpace(s[1..][..|s| - 1 - |r|])
    ensures r == s[|s| - |r|..] && AllSpace(s[..|s| - |r|])
  {
    var cut := |s| - |r|;
    forall k | 0 <= k < cut ensures IsSpace(s[..cut][k]) {
      if k > 0 { assert s[..cut][k] == s[1..][..cut - 1][k - 1]; }
    }
  }

  /** `s.rstrip()`: the longest prefix of `s` that does not end with whitespace. */
  function TrimRight(s: string): (r: string)
    ensures |r| <= |s| && r == s[..|r|]
    ensures AllSpace(s[|r|..])
    ensures r == [] || !IsSpace(r[|r| - 1])
    decreases |s|
  {
    if s != [] && IsSpace(s[|s| - 1]) then
      var r := TrimRight(s[..|s| - 1]);
      DropTrailingSpaceStep(s, r);
      r
    else s
  }

  /** A trailing space behind a trimmed prefix joins the removed part. */
  lemma DropTrailingSpaceStep(s: string, r: string)
    requires s != [] && IsSpace(s[|s| - 1])
    requires |r| <= |s| - 1 && r == s[..|s| - 1][..|r|] && AllSpace(s[..|s| - 1][|r|..])
    ensures r == s[..|r|] && AllSpace(s[|r|..])
  {
    forall k | 0 <= k < |s| - |r| ensures IsSpace(s[|r|..][k]) {
      if k < |s| - 1 - |r| { assert s[|r|..][k] == s[..|s| - 1][|r|..][k]; }
    }
  }

  /** `s.strip()` */
  function Strip(s: string): (r: string)
    ensures r == [] || (!IsSpace(r[0]) && !IsSpace(r[|r| - 1]))
    ensures |r| <= |s|
  {
    TrimRight(TrimLeft(s))
  }

  /** Stripping is idempotent: text that was already stripped is left alone. */
  lemma StripIdempotent(s: string)
    ensures Strip(Strip(s)) == Strip(s)
  {
    var t := Strip(s);
    assert TrimLeft(t) == t;
    assert TrimRight(t) == t;
  }

  /** A string is blank after stripping exactly when every character is whitespace. */
  lemma StripEmptyIffAllSpace(s: string)
    ensures Strip(s) == [] <==> AllSpace(s)
  {
    var l := TrimLeft(s);
    var cut := |s| - |l|;
    if Strip(s) == [] {
      assert TrimRight(l) == [];
      assert AllSpace(l[0..]);
      assert l == [];
      forall i | 0 <= i < |s| ensures IsSpace(s[i]) {
        assert s[..cut][i] == s[i];
      }
    } else if AllSpace(s) {
      if l != [] {
        assert false;
      }
    }
  }

  /** A string with no whitespace at its ends is its own `strip()`. */
  lemma StripNoSpaceEnds(s: string)
    requires s == [] || (!IsSpace(s[0]) && !IsSpace(s[|s| - 1]))
    ensures Strip(s) == s
  {
    assert TrimLeft(s) == s;
  }

  /** One trailing whitespace character after a stripped string is all `strip()` removes. */
  lemma StripTrailingSpace(s: string, c: char)
    requires s != [] && !IsSpace(s[0]) && !IsSpace(s[|s| - 1]) && IsSpace(c)
    ensures Strip(s + [c]) == s
  {
    var t := s + [c];
    assert t[0] == s[0];
    assert TrimLeft(t) == t;
    assert t[..|t| - 1] == s;
    StripNoSpaceEnds(s);
  }

  /** Python's `c.lower()` for the ASCII letters; every other character is left as it is. */
  function LowerChar(c: char): char {
    if 'A' <= c <= 'Z' then (c as int - 'A' as int + 'a' as int) as char else c
  }

  /** `s.lower()`, character by character. */
  function Lower(s: string): (r: string)
    ensures |r| == |s|
    ensures forall i :: 0 <= i < |s| ==> r[i] == LowerChar(s[i])
  {
    seq(|s|, i requires 0 <= i < |s| => LowerChar(s[i]))
  }

  predicate OccursAt(s: string, pat: string, i: nat) {
    i + |pat| <= |s| && s[i..i + |pat|] == pat
  }

  /** Python's `pat in s`. */
  predicate Contains(s: string, pat: string) {
    exists i: nat | i <= |s| :: OccursAt(s, pat, i)
  }

  predicate NoSpace(pat: string) {
    forall k :: 0 <= k < |pat| ==> !IsSpace(pat[k])
  }

  lemma ContainsTrimLeft(s: string, pat: string, i: nat)
    requires pat != [] && NoSpace(pat) && OccursAt(s, pat, i)
    ensures i >= |s| - |TrimLeft(s)| && OccursAt(TrimLeft(s), pat, i - (|s| - |TrimLeft(s)|))
  {
    OccursAtStart(s, pat, i);
    KeptByTrimLeft(s, i);
    OccursInSuffix(s, pat, i, |s| - |TrimLeft(s)|);
  }

  lemma OccursAtStart(s: string, pat: string, i: nat)
    requires pat != [] && OccursAt(s, pat, i)
    ensures s[i] == pat[0]
  {
    assert s[i] == s[i..i + |pat|][0];
  }

  /** An occurrence at or after `cut` is still there once the first `cut` characters are dropped. */
  lemma OccursInSuffix(s: string, pat: string, i: nat, cut: nat)
    requires cut <= i && OccursAt(s, pat, i)
    ensures OccursAt(s[cut..], pat, i - cut)
  {
    assert s[cut..][i - cut..i - cut + |pat|] == s[i..i + |pat|];
  }

  /** `lstrip()` only removes whitespace, so it keeps every character from the first non-space on. */
  lemma KeptByTrimLeft(s: string, i: nat)
    requires i < |s| && !IsSpace(s[i])
    ensures i >= |s| - |TrimLeft(s)|
  {
    var cut := |s| - |TrimLeft(s)|;
    assert forall k :: 0 <= k < cut ==> IsSpace(s[k]) by {
      forall k | 0 <= k < cut ensures IsSpace(s[k]) { assert s[..cut][k] == s[k]; }
    }
  }

  lemma ContainsTrimRight(s: string, pat: string, i: nat)
    requires pat != [] && NoSpace(pat) && OccursAt(s, pat, i)
    ensures OccursAt(TrimRight(s), pat, i)
  {
    var r := TrimRight(s);
    var q := i + |pat| - 1;
    assert !IsSpace(s[q]) by { assert s[q] == s[i..i + |pat|][|pat| - 1]; }
    assert r[i..i + |pat|] == s[i..i + |pat|];
  }

  /** An occurrence of a pattern that holds no whitespace survives `strip()`. */
  lemma ContainsStrip(s: string, pat: string)
    requires pat != [] && NoSpace(pat)
    requires Contains(s, pat)
    ensures Contains(Strip(s), pat)
  {
    var i: nat :| i <= |s| && OccursAt(s, pat, i);
    ContainsTrimLeft(s, pat, i);
    var j: nat := i - (|s| - |TrimLeft(s)|);
    ContainsTrimRight(TrimLeft(s), pat, j);
    OccursWitness(TrimRight(TrimLeft(s)), pat, j);
  }

  /** An occurrence at a position is a witness for `in`. */
  lemma OccursWitness(s: string, pat: string, i: nat)
    requires OccursAt(s, pat, i)
    ensures Contains(s, pat)
  {
  }

  /** Lower-casing leaves an occurrence of a pattern that has no upper-case letters. */
  lemma ContainsLower(s: string, pat: string)
    requires forall k :: 0 <= k < |pat| ==> LowerChar(pat[k]) == pat[k]
    requires Contains(s, pat)
    ensures Contains(Lower(s), pat)
  {
    var i: nat :| i <= |s| && OccursAt(s, pat, i);
    assert Lower(s)[i..i + |pat|] == pat;
    assert OccursAt(Lower(s), pat, i);
  }

  /**
   `s.replace(pat, '')`: scans left to right and deletes every occurrence
   of `pat` that does not overlap an earlier deleted one.
   */
  function RemoveAll(s: string, pat: string): (r: string)
    requires pat != []
    ensures |r| <= |s|
    decreases |s|
  {
    if |s| < |pat| then s
    else if s[..|pat|] == pat then RemoveAll(s[|pat|..], pat)
    else [s[0]] + RemoveAll(s[1..], pat)
  }

  /** Text that never holds the pattern's first character comes through `replace` unchanged,
      and so does whatever follows it. */
  lemma {:induction false} RemoveAllSkipsPrefix(a: string, b: string, pat: string)
    requires pat != []
    requires pat[0] !in a
    ensures RemoveAll(a + b, pat) == a + RemoveAll(b, pat)
    decreases |a|
  {
    if a == [] {
      assert a + b == b;
    } else {
      var ab := a + b;
      assert pat[0] !in a[1..] by { assert forall c :: c in a[1..] ==> c in a; }
      RemoveAllSkipsPrefix(a[1..], b, pat);
      assert RemoveAll(ab, pat) == [a[0]] + RemoveAll(ab[1..], pat) by {
        assert ab[0] == a[0] && a[0] in a;
        if |ab| >= |pat| {
          assert ab[..|pat|][0] != pat[0];
        }
      }
      assert ab[1..] == a[1..] + b;
      assert [a[0]] + (a[1..] + RemoveAll(b, pat)) == a + RemoveAll(b, pat);
    }
  }

  /** Text without the pattern's first character is its own `replace(pat, '')`. */
  lemma RemoveAllNoop(a: string, pat: string)
    requires pat != []
    requires pat[0] !in a
    ensures RemoveAll(a, pat) == a
  {
    RemoveAllSkipsPrefix(a, [], pat);
    assert a + [] == a;
  }

  /** When the pattern does not start the text, `replace` keeps the first character and goes on. */
  lemma RemoveAllKeepsFirst(s: string, pat: string)
    requires pat != [] && |s| >= |pat| && !OccursAt(s, pat, 0)
    ensures RemoveAll(s, pat) == [s[0]] + RemoveAll(s[1..], pat)
  {
  }

  /** An occurrence in the text after its first character is an occurrence one further on in the text. */
  lemma OccursShift(s: string, pat: string, j: nat)
    requires s != []
    ensures OccursAt(s[1..], pat, j) <==> OccursAt(s, pat, j + 1)
  {
    if j + 1 + |pat| <= |s| {
      assert s[1..][j..j + |pat|] == s[j + 1..j + 1 + |pat|];
    }
  }

  /** Text with no occurrence of the pattern is its own `replace(pat, '')`. */
  lemma {:induction false} RemoveAllNoOccurrence(s: string, pat: string)
    requires pat != [] && !Contains(s, pat)
    ensures RemoveAll(s, pat) == s
    decreases |s|
  {
    if |s| >= |pat| {
      assert !OccursAt(s, pat, 0);
      RemoveAllKeepsFirst(s, pat);
      forall j: nat | j <= |s[1..]| ensures !OccursAt(s[1..], pat, j) {
        OccursShift(s, pat, j);
      }
      RemoveAllNoOccurrence(s[1..], pat);
      assert [s[0]] + s[1..] == s;
    }
  }

  /**
   `replace(pat, '')` scans left to right: the text before the first
   occurrence is kept, that occurrence is deleted, and the scan goes on
   after it.
   */
  lemma {:induction false} RemoveAllFirstOccurrence(s: string, pat: string, i: nat)
    requires pat != [] && OccursAt(s, pat, i)
    requires forall j :: 0 <= j < i ==> !OccursAt(s, pat, j)
    ensures RemoveAll(s, pat) == s[..i] + RemoveAll(s[i + |pat|..], pat)
    decreases i, 1
  {
    if i == 0 {
      assert s[..0] + RemoveAll(s[|pat|..], pat) == RemoveAll(s[|pat|..], pat);
    } else {
      RemoveAllLaterOccurrence(s, pat, i);
    }
  }

  /** The step of the above when the first occurrence is not at the start. */
  lemma {:induction false} RemoveAllLaterOccurrence(s: string, pat: string, i: nat)
    requires pat != [] && 0 < i && OccursAt(s, pat, i)
    requires forall j :: 0 <= j < i ==> !OccursAt(s, pat, j)
    ensures RemoveAll(s, pat) == s[..i] + RemoveAll(s[i + |pat|..], pat)
    decreases i, 0
  {
    var t := s[1..];
    RemoveAllKeepsFirst(s, pat);
    OccursShift(s, pat, i - 1);
    NoEarlierOccurrenceShift(s, pat, i);
    RemoveAllFirstOccurrence(t, pat, i - 1);
    TailSuffix(s, i + |pat|);
    ConsAssemble(s, i, RemoveAll(s, pat), RemoveAll(t, pat), RemoveAll(s[i + |pat|..], pat));
  }

  /** Putting the first character back in front of a result on the tail. */
  lemma ConsAssemble(s: string, i: nat, whole: string, tail: string, rest: string)
    requires 0 < i <= |s|
    requires whole == [s[0]] + tail && tail == s[1..][..i - 1] + rest
    ensures whole == s[..i] + rest
  {
    PrefixAfterFirst(s, i, rest);
  }

  /** A suffix of the tail is a suffix of the whole. */
  lemma TailSuffix(s: string, k: nat)
    requires 0 < k <= |s|
    ensures s[1..][k - 1..] == s[k..]
  {
  }

  /** No occurrence before position i of s means none before i - 1 of s[1..]. */
  lemma NoEarlierOccurrenceShift(s: string, pat: string, i: nat)
    requires 0 < i <= |s| && forall j :: 0 <= j < i ==> !OccursAt(s, pat, j)
    ensures forall j :: 0 <= j < i - 1 ==> !OccursAt(s[1..], pat, j)
  {
    forall j | 0 <= j < i - 1 ensures !OccursAt(s[1..], pat, j) {
      OccursShift(s, pat, j);
    }
  }

  lemma PrefixAfterFirst(s: string, i: nat, x: string)
    requires 0 < i <= |s|
    ensures [s[0]] + (s[1..][..i - 1] + x) == s[..i] + x
  {
    assert [s[0]] + s[1..][..i - 1] == s[..i];
  }

  /** An occurrence behind text free of the pattern's first character is deleted. */
  lemma RemoveAllDeletes(a: string, b: string, pat: string)
    requires pat != [] && pat[0] !in a
    ensures RemoveAll(a + pat + b, pat) == a + RemoveAll(b, pat)
  {
    RemoveAllSkipsPrefix(a, pat + b, pat);
    assert a + pat + b == a + (pat + b);
    assert (pat + b)[..|pat|] == pat && (pat + b)[|pat|..] == b;
  }

  /** Python's `str.isdigit()` restricted to ASCII: non-empty and all of '0'..'9'. */
  predicate IsDigit(c: char) {
    '0' <= c <= '9'
  }

  predicate AllDigits(s: string) {
    forall i :: 0 <= i < |s| ==> IsDigit(s[i])
  }

  predicate IsDigitRun(s: string) {
    |s| > 0 && AllDigits(s)
  }

  /** The number a run of decimal digits denotes. */
  function DigitsValue(s: string): nat
    requires AllDigits(s)
    decreases |s|
  {
    if s == [] then 0
    else DigitsValue(s[..|s| - 1]) * 10 + (s[|s| - 1] as int - '0' as int)
  }

  /** The first position of `c` in `s`. */
  function IndexOf(s: string, c: char): (i: nat)
    requires c in s
    ensures i < |s| && s[i] == c && c !in s[..i]
  {
    if s[0] == c then 0 else 1 + IndexOf(s[1..], c)
  }

  /** `s.split(sep)`: the pieces between separators, always at least one. */
  function Split(s: string, sep: char): (parts: seq<string>)
    ensures |parts| >= 1
    ensures forall k :: 0 <= k < |parts| ==> sep !in parts[k]
    decreases |s|
  {
    if s == [] then [""]
    else
      var rest := Split(s[1..], sep);
      if s[0] == sep then [""] + rest
      else [[s[0]] + rest[0]] + rest[1..]
  }

  /** `sep.join(parts)` */
  function Join(parts: seq<string>, sep: char): string
    requires |parts| >= 1
    decreases |parts|
  {
    if |parts| == 1 then parts[0] else parts[0] + [sep] + Join(parts[1..], sep)
  }

  /** Number of occurrences of a character. */
  function Count(s: string, c: char): nat
    decreases |s|
  {
    if s == [] then 0 else (if s[0] == c then 1 else 0) + Count(s[1..], c)
  }

  /** Splitting loses nothing: joining the pieces back gives the line. */
  lemma {:induction false} JoinSplit(s: string, sep: char)
    ensures Join(Split(s, sep), sep) == s
    decreases |s|
  {
    if s != [] {
      var rest := Split(s[1..], sep);
      JoinSplit(s[1..], sep);
      if s[0] != sep {
        if |rest| > 1 {
          assert Split(s, sep)[1..] == rest[1..];
        }
      }
    }
  }

  /** Splitting the join of separator-free pieces gives back exactly those pieces. */
  lemma {:induction false} SplitJoin(parts: seq<string>, sep: char)
    requires |parts| >= 1
    requires forall k :: 0 <= k < |parts| ==> sep !in parts[k]
    ensures Split(Join(parts, sep), sep) == parts
    decreases |parts|, |parts[0]|
  {
    var p := parts[0];
    if p == [] {
      if |parts| > 1 {
        var tail := Join(parts[1..], sep);
        assert Join(parts, sep) == [sep] + tail;
        assert ([sep] + tail)[1..] == tail;
        SplitJoin(parts[1..], sep);
        assert [""] + parts[1..] == parts;
      }
    } else {
      var shorter := [p[1..]] + parts[1..];
      assert Join(shorter, sep) == Join(parts, sep)[1..] by {
        if |parts| > 1 {
          assert shorter[1..] == parts[1..];
        }
      }
      assert p[0] != sep by { assert p[0] in p; }
      SplitJoin(shorter, sep);
      assert [p[0]] + p[1..] == p;
      assert [[p[0]] + p[1..]] + parts[1..] == parts;
    }
  }

  /** One more piece than there are separators. */
  lemma {:induction false} SplitCount(s: string, sep: char)
    ensures |Split(s, sep)| == Count(s, sep) + 1
    decreases |s|
  {
    if s != [] {
      SplitCount(s[1..], sep);
    }
  }
}
