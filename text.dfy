/** The few Python string operations the core relies on: `str.split` with an
    explicit one-character separator, `str.join`, `str.strip`, prefix tests,
    and the decimal subset of `float()`. */
module Text {
  import opened Common

  /** `s.split(c)`: the pieces between occurrences of `c`; never empty. */
  function Split(s: string, c: char): (r: seq<string>)
    ensures |r| >= 1
    ensures forall k :: 0 <= k < |r| ==> c !in r[k]
  {
    if |s| == 0 then [""]
    else
      var rest := Split(s[1..], c);
      if s[0] == c then [""] + rest
      else [[s[0]] + rest[0]] + rest[1..]
  }

  /** `c.join(parts)` for a non-empty list of pieces. */
  function Join(parts: seq<string>, c: char): string
    requires |parts| >= 1
  {
    if |parts| == 1 then parts[0] else parts[0] + [c] + Join(parts[1..], c)
  }

  /** Splitting loses nothing: joining the pieces back gives the input. */
  lemma {:induction false} JoinSplit(s: string, c: char)
    ensures Join(Split(s, c), c) == s
  {
    if |s| > 0 {
      var rest := Split(s[1..], c);
      JoinSplit(s[1..], c);
      if s[0] == c {
        assert Split(s, c) == [""] + rest;
        assert Join([""] + rest, c) == "" + [c] + Join(rest, c);
      } else {
        var r := Split(s, c);
        assert r == [[s[0]] + rest[0]] + rest[1..];
        if |rest| == 1 {
          assert Join(r, c) == [s[0]] + rest[0];
        } else {
          assert rest == [rest[0]] + rest[1..];
          assert Join(rest, c) == rest[0] + [c] + Join(rest[1..], c);
          assert r[1..] == rest[1..];
          assert Join(r, c) == [s[0]] + rest[0] + [c] + Join(rest[1..], c);
        }
      }
    }
  }

  /** Characters `str.strip()` removes (those for which `str.isspace()` holds). */
  predicate IsSpace(ch: char)
  {
    ch in {'\U{0020}', '\U{0009}', '\U{000A}', '\U{000D}', '\U{000B}', '\U{000C}', '\U{001C}', '\U{001D}',
           '\U{001E}', '\U{001F}', '\U{0085}', '\U{00A0}', '\U{1680}', '\U{2000}', '\U{2001}', '\U{2002}',
           '\U{2003}', '\U{2004}', '\U{2005}', '\U{2006}', '\U{2007}', '\U{2008}', '\U{2009}', '\U{200A}',
           '\U{2028}', '\U{2029}', '\U{202F}', '\U{205F}', '\U{3000}'}
  }

  function StripStart(s: string): (r: string)
    ensures |r| <= |s| && r == s[|s| - |r|..]
    ensures forall k :: 0 <= k < |s| - |r| ==> IsSpace(s[k])
    ensures r == [] || !IsSpace(r[0])
  {
    if |s| > 0 && IsSpace(s[0]) then StripStart(s[1..]) else s
  }

  function StripEnd(s: string): (r: string)
    ensures |r| <= |s| && r == s[..|r|]
    ensures forall k :: |r| <= k < |s| ==> IsSpace(s[k])
    ensures r == [] || !IsSpace(r[|r| - 1])
  {
    if |s| > 0 && IsSpace(s[|s| - 1]) then StripEnd(s[..|s| - 1]) else s
  }

  /** `s.strip()`: the input without its leading and trailing whitespace;
      the result is an infix of `s` that neither starts nor ends with
      whitespace. */
  function Strip(s: string): (r: string)
    ensures r == [] || (!IsSpace(r[0]) && !IsSpace(r[|r| - 1]))
    ensures |r| <= |s|
    ensures exists i :: TrimmedAt(s, i, r)
  {
    var t := StripStart(s);
    var r := StripEnd(t);
    TrimmedTwice(s, t, r);
    r
  }

  /** Whitespace removed first from the front and then from the back
      leaves an infix with only whitespace around it. */
  lemma TrimmedTwice(s: string, t: string, r: string)
    requires |t| <= |s| && t == s[|s| - |t|..] && forall k :: 0 <= k < |s| - |t| ==> IsSpace(s[k])
    requires |r| <= |t| && r == t[..|r|] && forall k :: |r| <= k < |t| ==> IsSpace(t[k])
    ensures TrimmedAt(s, |s| - |t|, r)
  {
    var i := |s| - |t|;
    assert r == s[i..i + |r|];
    assert forall k :: i + |r| <= k < |s| ==> s[k] == t[k - i];
  }

  /** `r` is the part of `s` starting at `i`, and everything of `s` before
      and after it is whitespace. */
  predicate TrimmedAt(s: string, i: int, r: string)
  {
    0 <= i <= |s| - |r| && r == s[i..i + |r|] &&
    (forall k :: 0 <= k < i ==> IsSpace(s[k])) &&
    (forall k :: i + |r| <= k < |s| ==> IsSpace(s[k]))
  }

  predicate StartsWith(s: string, prefix: string)
  {
    |prefix| <= |s| && s[..|prefix|] == prefix
  }

  predicate EndsWith(s: string, suffix: string)
  {
    |suffix| <= |s| && s[|s| - |suffix|..] == suffix
  }

  /** A string that ends with `suffix` still does after text is put in
      front of it. */
  lemma EndsWithConcat(x: string, s: string, suffix: string)
    requires EndsWith(s, suffix)
    ensures EndsWith(x + s, suffix)
  {
    assert (x + s)[|x + s| - |suffix|..] == s[|s| - |suffix|..];
  }

  predicate IsDigit(ch: char) { '0' <= ch <= '9' }

  predicate AllDigits(s: string) { forall k :: 0 <= k < |s| ==> IsDigit(s[k]) }

  function DigitsValue(s: string): nat
    requires AllDigits(s)
  {
    if |s| == 0 then 0
    else DigitsValue(s[..|s| - 1]) * 10 + (s[|s| - 1] as int - '0' as int)
  }

  /** `10` to the power `n`. */
  function Pow10(n: nat): (r: real)
    ensures r >= 1.0
  {
    if n == 0 then 1.0 else 10.0 * Pow10(n - 1)
  }

  /** The value of one decimal digit. */
  function Digit(ch: char): real
  {
    (ch as int - '0' as int) as real
  }

  /** A product kept as one term, so that equal factors make equal
      products without arithmetic. */
  function Times(a: real, b: real): real
  {
    a * b
  }

  /** The value of the digits after a decimal point: 0.d1d2... */
  function FractionValue(s: string): (r: real)
    requires AllDigits(s)
    ensures 0.0 <= r
  {
    if |s| == 0 then 0.0
    else ((s[0] as int - '0' as int) as real + FractionValue(s[1..])) / 10.0
  }

  /** The decimal numerals `float()` accepts: an optional sign, digits, and at
      most one decimal point, with at least one digit overall. */
  function ParseNumber(s: string): (r: Option<real>)
    ensures r.Some? ==> |s| > 0
  {
    if |s| > 0 && (s[0] == '-' || s[0] == '+') then
      match ParseUnsigned(s[1..])
      case None => None
      case Some(v) => Some(if s[0] == '-' then -v else v)
    else ParseUnsigned(s)
  }

  function ParseUnsigned(s: string): (r: Option<real>)
    ensures r.Some? ==> r.value >= 0.0
  {
    var parts := Split(s, '.');
    if |parts| > 2 then None
    else
      var whole := parts[0];
      var fraction := if |parts| == 2 then parts[1] else "";
      if AllDigits(whole) && AllDigits(fraction) && |whole| + |fraction| > 0 then
        Some(DigitsValue(whole) as real + FractionValue(fraction))
      else None
  }

  /** A plain run of digits reads as the integer it denotes. */
  lemma ParseDigits(s: string)
    requires |s| > 0 && AllDigits(s)
    ensures ParseNumber(s) == Some(DigitsValue(s) as real)
  {
    SplitWithout(s, '.');
    assert Split(s, '.') == [s];
    assert s[0] != '-' && s[0] != '+' by { assert IsDigit(s[0]); }
  }

  /** The digits of `s` read as the digits before the last one, shifted
      one place, plus the last one. */
  lemma DigitsValueBack(s: string)
    requires |s| > 0 && AllDigits(s)
    ensures DigitsValue(s) as real == DigitsValue(s[..|s| - 1]) as real * 10.0 + Digit(s[|s| - 1])
  {
  }

  /** A leading digit is worth its place value: the digits of `s` read as
      the first digit times `10^(|s|-1)` plus the rest. */
  lemma {:induction false} DigitsValueFront(s: string)
    requires |s| > 0 && AllDigits(s)
    ensures DigitsValue(s) as real == Times(Digit(s[0]), Pow10(|s| - 1)) + DigitsValue(s[1..]) as real
  {
    if |s| > 1 {
      var init, rest := s[..|s| - 1], s[1..];
      DigitsValueFront(init);
      DigitsValueBack(s);
      DigitsValueBack(rest);
      assert init[1..] == rest[..|rest| - 1];
      assert init[0] == s[0];
      assert rest[|rest| - 1] == s[|s| - 1];
      FrontStep(DigitsValue(s) as real, DigitsValue(init) as real, Digit(s[0]), Pow10(|s| - 2), Pow10(|s| - 1),
                DigitsValue(rest) as real, DigitsValue(init[1..]) as real, Digit(s[|s| - 1]));
    } else {
      assert s[1..] == [];
    }
  }

  lemma FrontStep(v: real, vi: real, d: real, p: real, p10: real, vr: real, vir: real, last: real)
    requires v == vi * 10.0 + last && vi == Times(d, p) + vir
    requires vr == vir * 10.0 + last && p10 == 10.0 * p
    ensures v == Times(d, p10) + vr
  {
  }

  /** The digits after a decimal point read as an integer over the matching
      power of ten: `0.25` is `25 / 100`. */
  lemma FractionValueClosed(s: string)
    requires AllDigits(s)
    ensures FractionValue(s) == DigitsValue(s) as real / Pow10(|s|)
  {
    FractionValueScaled(s);
    Unscale(FractionValue(s), Pow10(|s|), DigitsValue(s) as real);
  }

  /** Scaled by the matching power of ten, the fraction digits give back
      their integer value. */
  lemma {:induction false} FractionValueScaled(s: string)
    requires AllDigits(s)
    ensures Times(FractionValue(s), Pow10(|s|)) == DigitsValue(s) as real
  {
    if |s| > 0 {
      FractionValueScaled(s[1..]);
      DigitsValueFront(s);
      ScaleStep(FractionValue(s), FractionValue(s[1..]), Digit(s[0]), DigitsValue(s[1..]) as real, Pow10(|s| - 1),
                DigitsValue(s) as real, Pow10(|s|));
    }
  }

  lemma ScaleStep(fv: real, rest: real, d: real, r: real, p: real, num: real, den: real)
    requires fv == (d + rest) / 10.0 && Times(rest, p) == r
    requires num == Times(d, p) + r && den == 10.0 * p
    ensures Times(fv, den) == num
  {
    calc {
      fv * den;
      (d + rest) / 10.0 * (10.0 * p);
      (d + rest) * p;
      d * p + rest * p;
    }
  }

  lemma Unscale(x: real, p: real, n: real)
    requires p > 0.0 && Times(x, p) == n
    ensures x == n / p
  {
  }

  /** A sign in front of an unsigned numeral negates it (`-`) or keeps it
      (`+`). */
  lemma ParseSigned(t: string)
    requires ParseUnsigned(t).Some?
    ensures ParseNumber("-" + t) == Some(-ParseUnsigned(t).value)
    ensures ParseNumber("+" + t) == ParseUnsigned(t)
  {
    assert ("-" + t)[1..] == t;
    assert ("+" + t)[1..] == t;
  }

  /** Splitting at an occurrence of the separator that has none before it
      gives the text before it as the first piece. */
  lemma {:induction false} SplitAt(a: string, b: string, c: char)
    requires c !in a
    ensures Split(a + [c] + b, c) == [a] + Split(b, c)
  {
    if |a| == 0 {
      assert a + [c] + b == [c] + b;
      assert ([c] + b)[1..] == b;
    } else {
      assert c !in a[1..] by { assert forall k :: 0 <= k < |a| - 1 ==> a[1..][k] == a[k + 1]; }
      SplitAt(a[1..], b, c);
      var s := a + [c] + b;
      assert s[0] == a[0] && s[1..] == a[1..] + [c] + b;
      assert [a[0]] + a[1..] == a;
    }
  }

  /** A text with exactly one separator splits into the two sides. */
  lemma SplitTwo(a: string, b: string, c: char)
    requires c !in a && c !in b
    ensures Split(a + [c] + b, c) == [a, b]
  {
    SplitAt(a, b, c);
    SplitWithout(b, c);
  }

  /** A decimal numeral `w.f` reads as the whole digits plus the fraction
      digits over the matching power of ten. */
  lemma ParseDecimal(w: string, f: string)
    requires AllDigits(w) && AllDigits(f) && |w| + |f| > 0
    ensures ParseUnsigned(w + "." + f) == Some(DigitsValue(w) as real + DigitsValue(f) as real / Pow10(|f|))
  {
    var s := w + "." + f;
    assert Split(s, '.') == [w, f] by {
      assert '.' !in w by { assert forall k :: 0 <= k < |w| ==> IsDigit(w[k]); }
      assert '.' !in f by { assert forall k :: 0 <= k < |f| ==> IsDigit(f[k]); }
      assert s == w + ['.'] + f;
      SplitTwo(w, f, '.');
    }
    assert ParseUnsigned(s) == Some(DigitsValue(w) as real + FractionValue(f));
    FractionValueClosed(f);
  }

  lemma {:induction false} SplitWithout(s: string, c: char)
    requires c !in s
    ensures Split(s, c) == [s]
  {
    if |s| > 0 {
      assert c !in s[1..] && s[0] != c by { assert forall k :: 0 <= k < |s| - 1 ==> s[1..][k] == s[k + 1]; }
      SplitWithout(s[1..], c);
      assert [s[0]] + s[1..] == s;
    }
  }
}
