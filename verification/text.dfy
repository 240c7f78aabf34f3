/** String primitives used by both the browser front end and the Python back
    end: ASCII digits, whitespace trimming, ASCII lower-casing, substring
    search, splitting on the first two comma-separated fields, and decimal
    rendering of integers. */
module Text {

  import opened Results

  /** An ASCII decimal digit (what JavaScript's `\d` matches). */
  predicate IsDigit(c: char) {
    '0' <= c <= '9'
  }

  /** A non-empty string of digits only: JavaScript's `/^\d+$/.test(s)` and
      Python's `s.isdigit()` restricted to ASCII. Both are false on "". */
  predicate AllDigits(s: string) {
    |s| > 0 && forall i :: 0 <= i < |s| ==> IsDigit(s[i])
  }

  /** The ASCII whitespace that both JavaScript's `trim` and Python's
      `strip` remove: space, tab, line feed, carriage return, vertical tab
      and form feed. Python's `strip` also removes the separators U+001C to
      U+001F, which `trim` keeps; those are not whitespace here. */
  predicate IsSpace(c: char) {
    c == ' ' || c == '\t' || c == '\n' || c == '\r' || c == '\U{000B}' || c == '\U{000C}'
  }

  predicate AllSpace(s: string) {
    forall i :: 0 <= i < |s| ==> IsSpace(s[i])
  }

  /** Neither starts nor ends with whitespace: the shape of a trimmed string. */
  predicate Trimmed(s: string) {
    s == [] || (!IsSpace(s[0]) && !IsSpace(s[|s| - 1]))
  }

  /** Drops leading whitespace. */
  function TrimStart(s: string): (r: string)
    ensures |r| <= |s|
    ensures r == [] || !IsSpace(r[0])
    decreases |s|
  {
    if |s| > 0 && IsSpace(s[0]) then TrimStart(s[1..]) else s
  }

  /** What `TrimStart` drops is whitespace, and what it keeps is a suffix. */
  lemma {:induction false} TrimStartWindow(s: string)
    ensures TrimStart(s) == s[|s| - |TrimStart(s)|..]
    ensures AllSpace(s[..|s| - |TrimStart(s)|])
    decreases |s|
  {
    if |s| > 0 && IsSpace(s[0]) {
      TrimStartWindow(s[1..]);
      var r := TrimStart(s[1..]);
      assert s[1..][|s| - 1 - |r|..] == s[|s| - |r|..];
      assert s[..|s| - |r|] == [s[0]] + s[1..][..|s| - 1 - |r|];
    }
  }

  /** Drops trailing whitespace. */
  function TrimEnd(s: string): (r: string)
    ensures |r| <= |s|
    ensures r == [] || !IsSpace(r[|r| - 1])
    ensures r != [] ==> r[0] == s[0]
    decreases |s|
  {
    if |s| > 0 && IsSpace(s[|s| - 1]) then TrimEnd(s[..|s| - 1]) else s
  }

  /** What `TrimEnd` drops is whitespace, and what it keeps is a prefix. */
  lemma {:induction false} TrimEndWindow(s: string)
    ensures TrimEnd(s) == s[..|TrimEnd(s)|]
    ensures AllSpace(s[|TrimEnd(s)|..])
    decreases |s|
  {
    if |s| > 0 && IsSpace(s[|s| - 1]) {
      var s' := s[..|s| - 1];
      TrimEndWindow(s');
      var r := TrimEnd(s');
      assert s'[..|r|] == s[..|r|];
      assert s[|r|..] == s'[|r|..] + [s[|s| - 1]];
    }
  }

  /** JavaScript's `String.prototype.trim` and Python's `str.strip()`. */
  function Trim(s: string): (r: string)
    ensures Trimmed(r)
    ensures |r| <= |s|
  {
    TrimEnd(TrimStart(s))
  }

  /** The trimmed string is a window of the input with only whitespace
      outside it. */
  lemma TrimWindow(s: string) returns (lo: nat, hi: nat)
    ensures IsTrimOf(s, lo, hi, Trim(s))
  {
    var u := TrimStart(s);
    var r := TrimEnd(u);
    TrimStartWindow(s);
    TrimEndWindow(u);
    lo, hi := |s| - |u|, |s| - |u| + |r|;
    assert r == s[lo..hi] by {
      assert s[lo..][..|r|] == s[lo..hi];
    }
    assert s[hi..] == u[|r|..];
  }

  /** `r` is `s[lo..hi]` and everything of `s` outside that window is
      whitespace. */
  ghost predicate IsTrimOf(s: string, lo: int, hi: int, r: string) {
    && 0 <= lo <= hi <= |s|
    && r == s[lo..hi]
    && AllSpace(s[..lo])
    && AllSpace(s[hi..])
  }

  lemma {:induction false} TrimStartSkipsSpace(p: string, t: string)
    requires AllSpace(p)
    requires t == [] || !IsSpace(t[0])
    ensures TrimStart(p + t) == t
    decreases |p|
  {
    if p == [] {
      assert p + t == t;
    } else {
      assert (p + t)[1..] == p[1..] + t;
      TrimStartSkipsSpace(p[1..], t);
    }
  }

  lemma {:induction false} TrimEndSkipsSpace(t: string, q: string)
    requires AllSpace(q)
    requires t == [] || !IsSpace(t[|t| - 1])
    ensures TrimEnd(t + q) == t
    decreases |q|
  {
    if q == [] {
      assert t + q == t;
    } else {
      assert (t + q)[..|t + q| - 1] == t + q[..|q| - 1];
      TrimEndSkipsSpace(t, q[..|q| - 1]);
    }
  }

  /** Trimming is determined by the decomposition: whitespace `p`, a trimmed
      core `t`, whitespace `q` trim to exactly `t`. */
  lemma {:induction false} TrimOfPadded(p: string, t: string, q: string)
    requires AllSpace(p) && AllSpace(q)
    requires Trimmed(t)
    ensures Trim(p + t + q) == t
  {
    if t == [] {
      assert p + t + q == p + q;
      assert AllSpace(p + q);
      TrimStartSkipsSpace(p + q, []);
      assert p + q + [] == p + q;
    } else {
      assert p + t + q == p + (t + q);
      TrimStartSkipsSpace(p, t + q);
      TrimEndSkipsSpace(t, q);
    }
  }

  /** Trimming twice is trimming once. */
  lemma TrimIdempotent(s: string)
    ensures Trim(Trim(s)) == Trim(s)
  {
    var t := Trim(s);
    TrimOfPadded([], t, []);
    assert [] + t + [] == t;
  }

  /** Surrounding whitespace does not change the trimmed string. */
  lemma TrimIgnoresPadding(p: string, s: string, q: string)
    requires AllSpace(p) && AllSpace(q)
    ensures Trim(p + s + q) == Trim(s)
  {
    var t := Trim(s);
    var lo, hi := TrimWindow(s);
    var front, back := s[..lo], s[hi..];
    assert s == front + t + back by {
      assert s == s[..lo] + s[lo..hi] + s[hi..];
    }
    var p', q' := p + front, back + q;
    Regroup(p, front, t, back, q);
    AllSpaceConcat(p, front);
    AllSpaceConcat(back, q);
    TrimOfPadded(p', t, q');
  }

  lemma Regroup(p: string, f: string, t: string, b: string, q: string)
    ensures p + (f + t + b) + q == (p + f) + t + (b + q)
  {
  }

  lemma AllSpaceConcat(a: string, b: string)
    requires AllSpace(a) && AllSpace(b)
    ensures AllSpace(a + b)
  {
  }

  /** A trimmed string is its own trim. */
  lemma TrimOfTrimmed(s: string)
    requires Trimmed(s)
    ensures Trim(s) == s
  {
    TrimOfPadded([], s, []);
    assert [] + s + [] == s;
  }

  /** A digit-only string has nothing to trim. */
  lemma DigitsAreTrimmed(t: string)
    requires AllDigits(t)
    ensures Trim(t) == t
  {
    assert Trimmed(t);
    TrimOfTrimmed(t);
  }

  predicate IsUpper(c: char) {
    'A' <= c <= 'Z'
  }

  /** ASCII upper case to lower case; every other character is unchanged. */
  function LowerChar(c: char): char {
    if IsUpper(c) then (c as int + 32) as char else c
  }

  /** JavaScript's `toLowerCase`, restricted to ASCII letters: no capital is
      left, each capital becomes its small letter, and every other character
      is kept in place. */
  function ToLower(s: string): (r: string)
    ensures |r| == |s|
    ensures forall i :: 0 <= i < |r| ==> !IsUpper(r[i])
    ensures forall i :: 0 <= i < |s| && IsUpper(s[i]) ==> r[i] as int == s[i] as int - 'A' as int + 'a' as int
    ensures forall i :: 0 <= i < |s| && !IsUpper(s[i]) ==> r[i] == s[i]
  {
    seq(|s|, i requires 0 <= i < |s| => LowerChar(s[i]))
  }

  /** Lower-casing twice is lower-casing once, and a string without capitals
      is already lower case. */
  lemma ToLowerIdempotent(s: string)
    ensures ToLower(ToLower(s)) == ToLower(s)
    ensures (forall i :: 0 <= i < |s| ==> !IsUpper(s[i])) ==> ToLower(s) == s
  {
    var r := ToLower(s);
    assert forall i :: 0 <= i < |r| ==> ToLower(r)[i] == r[i];
    if forall i :: 0 <= i < |s| ==> !IsUpper(s[i]) {
      assert forall i :: 0 <= i < |s| ==> r[i] == s[i];
    }
  }

  /** Lower-casing works character by character, so it distributes over
      concatenation. */
  lemma ToLowerConcat(a: string, b: string)
    ensures ToLower(a + b) == ToLower(a) + ToLower(b)
  {
    var l, r := ToLower(a + b), ToLower(a) + ToLower(b);
    assert |l| == |r|;
    forall i | 0 <= i < |l|
      ensures l[i] == r[i]
    {
      if i < |a| {
        assert (a + b)[i] == a[i];
      } else {
        assert (a + b)[i] == b[i - |a|];
      }
    }
  }

  /** A word occurring in `s` also occurs in any text that contains `s`. */
  lemma ContainsInContext(p: string, s: string, q: string, w: string)
    requires Contains(s, w)
    ensures Contains(p + s + q, w)
  {
    var i :| OccursAt(s, w, i);
    assert (p + s + q)[|p| + i..|p| + i + |w|] == s[i..i + |w|];
    assert OccursAt(p + s + q, w, |p| + i);
  }

  /** `w` occurs in `s` starting at index `i`. */
  ghost predicate OccursAt(s: string, w: string, i: int) {
    0 <= i && i + |w| <= |s| && s[i..i + |w|] == w
  }

  /** JavaScript's `s.includes(w)`: some window of `s` equals `w`. */
  function Contains(s: string, w: string): (b: bool)
    ensures b ==> exists i :: OccursAt(s, w, i)
    ensures (exists i :: OccursAt(s, w, i)) ==> b
    decreases |s|
  {
    if |w| <= |s| && s[..|w|] == w then
      assert OccursAt(s, w, 0);
      true
    else if |s| == 0 then
      false
    else
      assert !OccursAt(s, w, 0) by {
        if |w| <= |s| {
          assert s[0..|w|] == s[..|w|];
        }
      }
      assert forall i :: OccursAt(s, w, i) ==> OccursAt(s[1..], w, i - 1) by {
        forall i | OccursAt(s, w, i)
          ensures OccursAt(s[1..], w, i - 1)
        {
          assert s[1..][i - 1..i - 1 + |w|] == s[i..i + |w|];
        }
      }
      assert forall i :: OccursAt(s[1..], w, i) ==> OccursAt(s, w, i + 1) by {
        forall i | OccursAt(s[1..], w, i)
          ensures OccursAt(s, w, i + 1)
        {
          assert s[1..][i..i + |w|] == s[i + 1..i + 1 + |w|];
        }
      }
      Contains(s[1..], w)
  }

  /** Index of the first comma in `s`, or `|s|` when there is none. */
  function CommaIndex(s: string): (k: nat)
    ensures k <= |s|
    ensures k < |s| ==> s[k] == ','
    ensures forall i :: 0 <= i < k ==> s[i] != ','
  {
    if |s| == 0 || s[0] == ',' then 0 else 1 + CommaIndex(s[1..])
  }

  /** Python's `s.split(",")[0]`. */
  function FirstField(s: string): string {
    s[..CommaIndex(s)]
  }

  /** Python's `s.split(",")[1]`, or None where that indexing raises an
      IndexError because `s` has no comma. */
  function SecondField(s: string): Option<string> {
    var k := CommaIndex(s);
    if k == |s| then None else Some(FirstField(s[k + 1..]))
  }

  /** Splitting `a + "," + b` on commas gives back `a` as the first field
      and the first field of `b` as the second, when `a` has no comma. */
  lemma JoinThenSplit(a: string, b: string)
    requires forall i :: 0 <= i < |a| ==> a[i] != ','
    ensures FirstField(a + "," + b) == a
    ensures SecondField(a + "," + b) == Some(FirstField(b))
  {
    var s := a + "," + b;
    assert s[|a|] == ',';
    CommaIndexAt(s, |a|);
    assert s[|a| + 1..] == b;
  }

  lemma CommaIndexAt(s: string, k: nat)
    requires k < |s| && s[k] == ','
    requires forall i :: 0 <= i < k ==> s[i] != ','
    ensures CommaIndex(s) == k
  {
  }

  /** A string without a comma is its own single field. */
  lemma SplitWithoutComma(s: string)
    requires forall i :: 0 <= i < |s| ==> s[i] != ','
    ensures FirstField(s) == s
    ensures SecondField(s) == None
  {
  }

  function DigitChar(d: int): (c: char)
    requires 0 <= d < 10
    ensures IsDigit(c)
  {
    ('0' as int + d) as char
  }

  /** The value of a decimal digit. */
  function DigitValue(c: char): int {
    c as int - '0' as int
  }

  /** The number a string of decimal digits denotes, read left to right
      (Python's `int(s)` on such a string). */
  function DigitsValue(s: string): int
    decreases |s|
  {
    if s == [] then 0 else DigitsValue(s[..|s| - 1]) * 10 + DigitValue(s[|s| - 1])
  }

  /** Python's `str(n)` for a non-negative integer: decimal digits with no
      leading zero, except for zero itself. */
  function NatToString(n: nat): (r: string)
    ensures AllDigits(r)
    ensures r[0] == '0' <==> n == 0
  {
    if n < 10 then [DigitChar(n)] else NatToString(n / 10) + [DigitChar(n % 10)]
  }

  /** Reading the rendered digits back gives the number. */
  lemma {:induction false} NatToStringRoundTrip(n: nat)
    ensures DigitsValue(NatToString(n)) == n
    decreases n
  {
    var r := NatToString(n);
    if n < 10 {
      assert r[..|r| - 1] == [];
    } else {
      NatToStringRoundTrip(n / 10);
      assert r[..|r| - 1] == NatToString(n / 10);
    }
  }

  /** Python's `str(n)` for any integer: a minus sign exactly for negative
      numbers, then the digits of the magnitude. */
  function IntToString(n: int): (r: string)
    ensures |r| > 0
    ensures r[0] == '-' <==> n < 0
    ensures n >= 0 ==> AllDigits(r)
    ensures n < 0 ==> AllDigits(r[1..])
  {
    if n >= 0 then NatToString(n) else "-" + NatToString(-n)
  }

  /** Reading the rendered integer back gives the number. */
  lemma IntToStringRoundTrip(n: int)
    ensures n >= 0 ==> DigitsValue(IntToString(n)) == n
    ensures n < 0 ==> -DigitsValue(IntToString(n)[1..]) == n
  {
    if n >= 0 {
      NatToStringRoundTrip(n);
    } else {
      NatToStringRoundTrip(-n);
      assert IntToString(n)[1..] == NatToString(-n);
    }
  }
}
