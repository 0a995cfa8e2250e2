/**
 * Text formatting the pipeline relies on: zero-padded decimal fields
 * (strftime's %Y and %m), integers written with comma thousands separators
 * (Python's `,` format option) and the code-point order of strings that
 * pandas uses to sort group keys.
 */
module Text {

  import opened Wrappers

  predicate IsDigit(c: char) { '0' <= c <= '9' }

  predicate AllDigits(s: string) { forall i :: 0 <= i < |s| ==> IsDigit(s[i]) }

  function DigitValue(c: char): nat
    requires IsDigit(c)
  {
    c as int - '0' as int
  }

  function DigitChar(d: nat): (c: char)
    requires d < 10
    ensures IsDigit(c) && DigitValue(c) == d
  {
    ('0' as int + d) as char
  }

  function Pow10(n: nat): (r: nat)
    ensures r >= 1
  {
    if n == 0 then 1 else 10 * Pow10(n - 1)
  }

  /** The value of a string of decimal digits, most significant first. */
  function ParseDigits(s: string): nat
    requires AllDigits(s)
  {
    if s == [] then 0 else 10 * ParseDigits(s[..|s| - 1]) + DigitValue(s[|s| - 1])
  }

  /** `n` in decimal without leading zeros, as `str(n)` writes it. */
  function Digits(n: nat): (s: string)
    ensures 1 <= |s| && AllDigits(s)
    ensures ParseDigits(s) == n
    ensures s[0] == '0' ==> n == 0
  {
    if n < 10 then [DigitChar(n)]
    else
      var s := Digits(n / 10) + [DigitChar(n % 10)];
      assert s[..|s| - 1] == Digits(n / 10);
      s
  }

  /** `n` in decimal, left-padded with zeros to exactly `width` digits. */
  function Padded(n: nat, width: nat): (s: string)
    requires n < Pow10(width)
    ensures |s| == width && AllDigits(s)
    ensures ParseDigits(s) == n
  {
    if width == 0 then []
    else
      var s := Padded(n / 10, width - 1) + [DigitChar(n % 10)];
      assert s[..|s| - 1] == Padded(n / 10, width - 1);
      s
  }

  lemma {:induction false} ParseDigitsAppend(a: string, b: string)
    requires AllDigits(a) && AllDigits(b)
    ensures AllDigits(a + b)
    ensures ParseDigits(a + b) == ParseDigits(a) * Pow10(|b|) + ParseDigits(b)
  {
    AllDigitsAppend(a, b);
    var ab := a + b;
    if b == [] {
      assert ab == a;
    } else {
      var b', c := b[..|b| - 1], b[|b| - 1];
      assert ab[..|ab| - 1] == a + b' && ab[|ab| - 1] == c;
      ParseDigitsAppend(a, b');
      var pa, pb, p, d := ParseDigits(a), ParseDigits(b'), Pow10(|b'|), DigitValue(c);
      assert ParseDigits(ab) == 10 * (pa * p + pb) + d;
      assert ParseDigits(b) == 10 * pb + d;
      assert Pow10(|b|) == 10 * p;
      ShiftDigit(pa, pb, p, d);
    }
  }

  lemma AllDigitsAppend(a: string, b: string)
    requires AllDigits(a) && AllDigits(b)
    ensures AllDigits(a + b)
  {
    var ab := a + b;
    forall i | 0 <= i < |ab|
      ensures IsDigit(ab[i])
    {
      if i < |a| {
        assert ab[i] == a[i];
      } else {
        assert ab[i] == b[i - |a|];
      }
    }
  }

  /** Appending digit `d` to a number whose value is `high * p + low`, kept
    * apart from ParseDigitsAppend: stated inline there, this product identity
    * sends the solver through the whole digit-string context. */
  lemma ShiftDigit(high: int, low: int, p: int, d: int)
    ensures 10 * (high * p + low) + d == high * (10 * p) + (10 * low + d)
  {
  }

  // ---------------------------------------------------------------------
  // Thousands separators: f"{n:,.0f}" for an integral n.
  // ---------------------------------------------------------------------

  /** A non-negative integer with a comma between every group of three digits. */
  function Grouped(n: nat): (s: string)
    ensures 1 <= |s|
  {
    if n < 1000 then Digits(n) else Grouped(n / 1000) + [','] + Padded(n % 1000, 3)
  }

  /** How Python's `,` option writes an integral value: a leading minus sign,
    * then the magnitude grouped by threes. */
  function FormatThousands(n: int): (s: string)
    ensures 1 <= |s|
  {
    if n < 0 then ['-'] + Grouped(-n) else Grouped(n)
  }

  /**
   * The shape of a grouped number: one to three leading digits, then any
   * number of groups made of a comma and exactly three digits.
   */
  predicate WellGrouped(s: string)
    decreases |s|
  {
    (1 <= |s| <= 3 && AllDigits(s))
    || (|s| > 4 && s[|s| - 4] == ',' && AllDigits(s[|s| - 3..]) && WellGrouped(s[..|s| - 4]))
  }

  function DropCommas(s: string): (r: string)
    ensures |r| <= |s| && ',' !in r
  {
    if s == [] then [] else (if s[0] == ',' then [] else [s[0]]) + DropCommas(s[1..])
  }

  /** The inverse of FormatThousands: read the sign, drop the separators, read the digits. */
  function ParseThousands(s: string): (r: Option<int>)
  {
    if |s| > 0 && s[0] == '-' then
      var body := DropCommas(s[1..]);
      if AllDigits(body) then Some(-(ParseDigits(body) as int)) else None
    else
      var body := DropCommas(s);
      if AllDigits(body) then Some(ParseDigits(body) as int) else None
  }

  lemma {:induction false} DropCommasAppend(a: string, b: string)
    ensures DropCommas(a + b) == DropCommas(a) + DropCommas(b)
  {
    if a == [] {
      assert a + b == b;
    } else {
      assert (a + b)[0] == a[0];
      assert (a + b)[1..] == a[1..] + b;
      DropCommasAppend(a[1..], b);
      var first := if a[0] == ',' then [] else [a[0]];
      calc {
        DropCommas(a + b);
        first + DropCommas(a[1..] + b);
        first + (DropCommas(a[1..]) + DropCommas(b));
        (first + DropCommas(a[1..])) + DropCommas(b);
      }
    }
  }

  lemma {:induction false} DropCommasDigits(s: string)
    requires AllDigits(s)
    ensures DropCommas(s) == s
  {
    if s != [] {
      DropCommasDigits(s[1..]);
    }
  }

  /** Grouping only inserts commas: removing them gives the digits back, and
    * the digit string has no leading zero. */
  lemma {:induction false} GroupedDigits(n: nat)
    ensures AllDigits(DropCommas(Grouped(n)))
    ensures ParseDigits(DropCommas(Grouped(n))) == n
    ensures WellGrouped(Grouped(n))
    ensures IsDigit(Grouped(n)[0])
    ensures Grouped(n)[0] == '0' ==> n == 0
    ensures Grouped(n)[0] == '0' ==> Grouped(n) == "0"
  {
    if n < 1000 {
      DropCommasDigits(Digits(n));
      DigitsShort(n);
      if n == 0 {
        assert Digits(0) == "0";
      }
    } else {
      GroupedDigits(n / 1000);
      GroupedStep(n);
      GroupedShape(n);
    }
  }

  lemma GroupedStep(n: nat)
    requires n >= 1000
    requires AllDigits(DropCommas(Grouped(n / 1000)))
    requires ParseDigits(DropCommas(Grouped(n / 1000))) == n / 1000
    ensures AllDigits(DropCommas(Grouped(n)))
    ensures ParseDigits(DropCommas(Grouped(n))) == n
  {
    var head := Grouped(n / 1000);
    var tail := Padded(n % 1000, 3);
    assert Grouped(n) == head + [','] + tail;
    DropCommasGroup(head, tail);
    var digits := DropCommas(head);
    ParseDigitsAppend(digits, tail);
    assert Pow10(3) == 1000;
    assert (n / 1000) * 1000 + n % 1000 == n;
  }

  /** Dropping the commas of `head,tail` leaves the commas-free head and the digits of tail. */
  lemma DropCommasGroup(head: string, tail: string)
    requires AllDigits(tail)
    ensures DropCommas(head + [','] + tail) == DropCommas(head) + tail
  {
    assert [','][1..] == [];
    assert DropCommas([',']) == [];
    DropCommasAppend(head, [',']);
    assert DropCommas(head + [',']) == DropCommas(head);
    DropCommasAppend(head + [','], tail);
    DropCommasDigits(tail);
  }

  lemma GroupedShape(n: nat)
    requires n >= 1000
    requires WellGrouped(Grouped(n / 1000))
    requires IsDigit(Grouped(n / 1000)[0])
    requires Grouped(n / 1000)[0] == '0' ==> n / 1000 == 0
    ensures WellGrouped(Grouped(n))
    ensures IsDigit(Grouped(n)[0])
    ensures Grouped(n)[0] == '0' ==> n == 0
  {
    var head := Grouped(n / 1000);
    var s := Grouped(n);
    assert s[..|s| - 4] == head;
    assert s[|s| - 3..] == Padded(n % 1000, 3);
    assert s[0] == head[0];
  }

  /**
   * What Python's `,` option writes for `n`: for a non-negative `n`, grouped
   * digits that start with `0` only when they are exactly `0`; for a
   * negative `n`, a minus sign and then grouped digits that do not start
   * with `0`.
   */
  predicate ThousandsShaped(s: string, n: int)
  {
    if n >= 0 then 1 <= |s| && WellGrouped(s) && (s[0] == '0' ==> s == "0")
    else 2 <= |s| && s[0] == '-' && WellGrouped(s[1..]) && s[1] != '0'
  }

  /** FormatThousands writes every integer in that shape. */
  lemma FormatThousandsShape(n: int)
    ensures ThousandsShaped(FormatThousands(n), n)
  {
    if n < 0 {
      GroupedDigits(-n);
      assert FormatThousands(n)[1..] == Grouped(-n);
    } else {
      GroupedDigits(n);
    }
  }

  /**
   * The shape and the value fix the text: a string in the shape Python
   * writes that reads back as `n` is exactly FormatThousands(n).
   */
  lemma FormatThousandsCanonical(s: string, n: int)
    requires ThousandsShaped(s, n)
    requires ParseThousands(s) == Some(n)
    ensures s == FormatThousands(n)
  {
    if n >= 0 {
      WellGroupedFirst(s);
      GroupedCanonical(s, n);
    } else {
      WellGroupedFirst(s[1..]);
      GroupedCanonical(s[1..], -n);
      assert s == ['-'] + s[1..];
    }
  }

  lemma {:induction false} WellGroupedFirst(s: string)
    requires WellGrouped(s)
    ensures 1 <= |s| && IsDigit(s[0])
    decreases |s|
  {
    if !(1 <= |s| <= 3 && AllDigits(s)) {
      WellGroupedFirst(s[..|s| - 4]);
    }
  }

  /** A grouped string without a leading zero is the grouping of its value. */
  lemma {:induction false} GroupedCanonical(s: string, n: nat)
    requires WellGrouped(s) && (s[0] == '0' ==> s == "0")
    requires AllDigits(DropCommas(s)) && ParseDigits(DropCommas(s)) == n
    ensures s == Grouped(n)
    decreases |s|
  {
    if 1 <= |s| <= 3 && AllDigits(s) {
      DropCommasDigits(s);
      ParseDigitsBound(s);
      assert Pow10(|s|) <= 1000 by {
        assert Pow10(3) == 1000;
        Pow10Monotone(|s|, 3);
      }
      DigitsCanonical(s, n);
    } else {
      var h, t := s[..|s| - 4], s[|s| - 3..];
      assert s == h + [','] + t;
      DropCommasGroup(h, t);
      var dh := DropCommas(h);
      assert AllDigits(dh) by {
        assert forall i :: 0 <= i < |dh| ==> DropCommas(s)[i] == dh[i];
      }
      ParseDigitsAppend(dh, t);
      ParseDigitsBound(t);
      assert Pow10(3) == 1000;
      var hi, lo := ParseDigits(dh), ParseDigits(t);
      assert n == hi * 1000 + lo && lo < 1000;
      assert n / 1000 == hi && n % 1000 == lo;
      WellGroupedFirst(h);
      assert h[0] == s[0];
      GroupedCanonical(h, hi);
      if hi == 0 {
        assert false;
      }
      PaddedCanonical(t, lo);
    }
  }

  /** A digit string without a leading zero is the decimal text of its value. */
  lemma {:induction false} DigitsCanonical(s: string, n: nat)
    requires 1 <= |s| && AllDigits(s) && (s[0] == '0' ==> s == "0")
    requires ParseDigits(s) == n
    ensures s == Digits(n)
  {
    var init, c := s[..|s| - 1], s[|s| - 1];
    assert s == init + [c];
    assert DigitChar(DigitValue(c)) == c;
    if |s| == 1 {
      assert ParseDigits(init) == 0;
    } else {
      assert init[0] == s[0] != '0';
      LeadingNonZero(init);
      assert n / 10 == ParseDigits(init) && n % 10 == DigitValue(c);
      DigitsCanonical(init, n / 10);
    }
  }

  lemma {:induction false} LeadingNonZero(s: string)
    requires 1 <= |s| && AllDigits(s) && s[0] != '0'
    ensures ParseDigits(s) >= 1
  {
    if |s| > 1 {
      assert s[..|s| - 1][0] == s[0];
      LeadingNonZero(s[..|s| - 1]);
    }
  }

  /** A digit string of a given width is the zero-padded text of its value. */
  lemma {:induction false} PaddedCanonical(t: string, v: nat)
    requires AllDigits(t) && ParseDigits(t) == v
    ensures v < Pow10(|t|) && t == Padded(v, |t|)
  {
    ParseDigitsBound(t);
    if t != [] {
      var init, c := t[..|t| - 1], t[|t| - 1];
      assert t == init + [c];
      assert DigitChar(DigitValue(c)) == c;
      assert v / 10 == ParseDigits(init) && v % 10 == DigitValue(c);
      PaddedCanonical(init, v / 10);
    }
  }

  lemma {:induction false} ParseDigitsBound(s: string)
    requires AllDigits(s)
    ensures ParseDigits(s) < Pow10(|s|)
  {
    if s != [] {
      ParseDigitsBound(s[..|s| - 1]);
    }
  }

  lemma {:induction false} Pow10Monotone(i: nat, j: nat)
    requires i <= j
    ensures Pow10(i) <= Pow10(j)
    decreases j
  {
    if i < j {
      Pow10Monotone(i, j - 1);
    }
  }

  lemma {:induction false} DigitsShort(n: nat)
    requires n < 1000
    ensures |Digits(n)| <= 3
  {
    if n >= 10 {
      DigitsShort(n / 10);
    }
  }

  /** Reading back a formatted total gives the total: no digit is lost or
    * added by the separators or the sign. */
  lemma FormatThousandsRoundTrip(n: int)
    ensures ParseThousands(FormatThousands(n)) == Some(n)
  {
    var m := if n < 0 then -n else n;
    var g := Grouped(m);
    GroupedDigits(m);
    if n < 0 {
      ParseNegated(g, m);
    } else {
      ParseGrouped(g, m);
    }
    assert FormatThousands(n) == if n < 0 then ['-'] + g else g;
  }

  /** Reading grouped digits back. */
  lemma ParseGrouped(g: string, v: nat)
    requires 1 <= |g| && IsDigit(g[0])
    requires AllDigits(DropCommas(g)) && ParseDigits(DropCommas(g)) == v
    ensures ParseThousands(g) == Some(v)
  {
    assert g[0] != '-';
  }

  /** Reading grouped digits after a minus sign back. */
  lemma ParseNegated(g: string, v: nat)
    requires AllDigits(DropCommas(g)) && ParseDigits(DropCommas(g)) == v
    ensures ParseThousands(['-'] + g) == Some(-(v as int))
  {
    var s := ['-'] + g;
    assert s[0] == '-' && s[1..] == g;
  }

  /** 600 is written `600`. */
  lemma HundredsExample()
    ensures FormatThousands(600) == "600"
  {
    assert Digits(6) == "6";
    assert Digits(60) == "60";
    assert FormatThousands(600) == Grouped(600) == Digits(600);
  }

  /** 1234 is written `1,234`. */
  lemma ThousandsExample()
    ensures Grouped(1234) == "1,234"
    ensures FormatThousands(1234) == "1,234"
  {
    assert Grouped(1) == "1";
    assert Padded(2, 1) == "2";
    assert Padded(23, 2) == "23";
    assert Padded(234, 3) == "234";
    assert 1234 / 1000 == 1 && 1234 % 1000 == 234;
    assert Grouped(1234) == Grouped(1) + [','] + Padded(234, 3);
  }

  /** -1234567 is written `-1,234,567`. */
  lemma MillionsExample()
    ensures FormatThousands(-1234567) == "-1,234,567"
  {
    ThousandsExample();
    LowGroupExample();
    assert 1234567 / 1000 == 1234 && 1234567 % 1000 == 567;
    assert Grouped(1234567) == Grouped(1234) + [','] + Padded(567, 3);
    assert FormatThousands(-1234567) == ['-'] + Grouped(1234567);
  }

  lemma LowGroupExample()
    ensures Padded(567, 3) == "567"
  {
    assert Padded(5, 1) == "5";
    assert Padded(56, 2) == "56";
  }

  // ---------------------------------------------------------------------
  // Code-point order on strings (Python's `<` on str).
  // ---------------------------------------------------------------------

  predicate StrLess(a: string, b: string)
  {
    if a == [] then b != []
    else if b == [] then false
    else a[0] < b[0] || (a[0] == b[0] && StrLess(a[1..], b[1..]))
  }

  lemma {:induction false} StrLessIrreflexive(a: string)
    ensures !StrLess(a, a)
  {
    if a != [] {
      StrLessIrreflexive(a[1..]);
    }
  }

  lemma {:induction false} StrLessTransitive(a: string, b: string, c: string)
    requires StrLess(a, b) && StrLess(b, c)
    ensures StrLess(a, c)
  {
    if a != [] && b != [] && c != [] && a[0] == b[0] && b[0] == c[0] {
      StrLessTransitive(a[1..], b[1..], c[1..]);
    }
  }

  lemma {:induction false} StrLessTotal(a: string, b: string)
    ensures a == b || StrLess(a, b) || StrLess(b, a)
  {
    if a != [] && b != [] && a[0] == b[0] {
      StrLessTotal(a[1..], b[1..]);
      if a[1..] == b[1..] {
        assert a == [a[0]] + a[1..] && b == [b[0]] + b[1..];
      }
    }
  }
}
