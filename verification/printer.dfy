/** The decimal printer for weights: nine digits of a double, truncated, with the point in its place. */
module Printer {
  import opened Machine

  const DOUBLE_LEN: nat := 11
  const NINE: nat := DOUBLE_LEN - 2

  // ---------------------------------------------------------------- specification functions

  /** a times ten to the power n. */
  function Times10(a: real, n: nat): real
  {
    if n == 0 then a else 10.0 * Times10(a, n - 1)
  }

  /** a divided by ten to the power n. */
  function Over10(a: real, n: nat): real
  {
    if n == 0 then a else Over10(a, n - 1) / 10.0
  }

  function Pow10(n: nat): nat
  {
    if n == 0 then 1 else 10 * Pow10(n - 1)
  }

  /** The number of digits before the decimal point. */
  function IntDigits(a: real): (d: nat)
    requires a >= 0.0
    ensures d >= 1
    decreases a.Floor
  {
    if a < 10.0 then 1 else 1 + IntDigits(a / 10.0)
  }

  /** The number with its point moved behind the first digit. */
  function Leading(a: real): (l: real)
    requires a >= 0.0
    ensures 0.0 <= l < 10.0
    decreases a.Floor
  {
    if a < 10.0 then a else Leading(a / 10.0)
  }

  function DigitChar(d: nat): char
    requires d < 10
  {
    ('0' as int + d) as char
  }

  /** The n low decimal digits of a number, most significant first. */
  function Digits(number: nat, n: nat): (s: string)
    ensures |s| == n
  {
    if n == 0 then "" else Digits(number / 10, n - 1) + [DigitChar(number % 10)]
  }

  function WithPoint(s: string, at: nat): string
  {
    if at <= |s| then s[..at] + "." + s[at..] else s
  }

  function SignText(v: real): string { if v < 0.0 then "-" else "" }

  /** The first nine digits of the number, as an integer. */
  function Mantissa(v: real): nat { (Leading(AbsReal(v)) * 100000000.0).Floor }

  /** The text after k digits. */
  function Shown(v: real, number: nat, k: nat, point: nat): (s: string)
    ensures |s| == |SignText(v)| + k + (if point <= k then 1 else 0)
  {
    SignText(v) + WithPoint(Digits(number, k), point)
  }

  function Rendered(v: real): string
  {
    Shown(v, Mantissa(v), NINE, IntDigits(AbsReal(v)))
  }

  // ---------------------------------------------------------------- the printing loop

  /** Divides the value down to one integer digit and counts the divisions. */
  method CountDigits(a: real) returns (value: real, digits: nat)
    requires a >= 0.0
    ensures value == Leading(a) && digits == IntDigits(a)
  {
    value, digits := a, 1;
    while value >= 10.0
      invariant value >= 0.0
      invariant digits >= 1 && digits + IntDigits(value) == 1 + IntDigits(a)
      invariant Leading(value) == Leading(a)
      decreases value.Floor
    {
      TenthIsSmaller(value);
      value := value / 10.0;
      digits := digits + 1;
    }
  }

  /** Counts one digit up in place while the value pays for it. */
  method PutDigit(buf: array<char>, at: nat, whole: real) returns (value: real)
    requires at < buf.Length && 0.0 <= whole < 10.0
    modifies buf
    ensures 0.0 <= value == whole - whole.Floor as real < 1.0
    ensures buf[..] == old(buf[..])[at := DigitChar(whole.Floor)]
  {
    value := whole;
    buf[at] := '0';
    ghost var d := 0;
    while value >= 1.0 && buf[at] < '9'
      invariant d < 10 && 0.0 <= value == whole - d as real
      invariant buf[..] == old(buf[..])[at := DigitChar(d)]
      decreases 10 - d
    {
      buf[at] := (buf[at] as int + 1) as char;
      value := value - 1.0;
      d := d + 1;
    }
  }

  /** What one round writes: a digit, and the point when it is due. */
  function Piece(d: nat, due: bool): (s: string)
    requires d < 10
    ensures |s| == if due then 2 else 1
  {
    if due then [DigitChar(d), '.'] else [DigitChar(d)]
  }

  /** One round of the printing loop. */
  method EmitDigit(buf: array<char>, at: nat, whole: real, digits: int) returns (i: nat, value: real)
    requires at + 2 <= buf.Length && 0.0 <= whole < 10.0
    modifies buf
    ensures i == at + |Piece(whole.Floor, digits == 1)|
    ensures value == (whole - whole.Floor as real) * 10.0 && 0.0 <= value < 10.0
    ensures buf[..] == old(buf[..])[..at] + Piece(whole.Floor, digits == 1) + old(buf[..])[i..]
  {
    i := at;
    value := PutDigit(buf, i, whole);
    i := i + 1;
    if digits - 1 == 0 {
      buf[i] := '.';
      i := i + 1;
    }
    value := value * 10.0;
  }

  /** The loop invariant of the printing loop: after k rounds the buffer holds k digits of the text, acc is the
      number they show, and value is what is left to print. */
  ghost predicate Round(contents: string, i: nat, value: real, k: nat, acc: nat, p: Print)
  {
    && contents == Shown(p.v, acc, k, p.point) + p.rest[Min(i, |p.rest|)..]
    && i == |Shown(p.v, acc, k, p.point)|
    && 0.0 <= value < 10.0
    && Times10(p.first, k) == 10.0 * acc as real + value
  }

  /** What stays fixed while one number is printed. */
  datatype Print = Print(v: real, first: real, point: nat, rest: string)

  lemma NextRound(
      contents: string, contents': string, i: nat, i': nat, value: real, value': real, k: nat, acc: nat, p: Print)
    requires Round(contents, i, value, k, acc, p) && p.point >= 1 && i + 2 <= |p.rest| && |contents| == |p.rest|
    requires var piece := Piece(value.Floor, p.point - k == 1);
      i' == i + |piece| && contents' == contents[..i] + piece + contents[i'..]
    requires value' == (value - value.Floor as real) * 10.0
    ensures Round(contents', i', value', k + 1, 10 * acc + value.Floor, p)
  {
    hide Digits, WithPoint, SignText, Piece;
    var d: nat := value.Floor;
    NextDigit(p.v, acc, d, 10 * acc + d, k, p.point);
    var text := Shown(p.v, acc, k, p.point);
    assert contents[..i] == text;
    assert contents[i'..] == p.rest[i'..];
  }

  /** The loop over the nine digits, behind the sign. */
  method EmitDigits(buf: array<char>, at: nat, first: real, point: nat, ghost p: Print) returns (i: nat, ghost acc: nat)
    requires p.first == first && p.point == point >= 1 && |p.rest| == buf.Length >= at + NINE + 2
    requires 0.0 <= first < 10.0 && Round(buf[..], at, first, 0, 0, p)
    modifies buf
    ensures acc == (first * 100000000.0).Floor && i < buf.Length
    ensures i == |Shown(p.v, acc, NINE, point)| && buf[..] == Shown(p.v, acc, NINE, point) + p.rest[i..]
  {
    hide Round, Shown, Piece;
    var value, digits: int, k := first, point, 0;
    i, acc := at, 0;
    while k < DOUBLE_LEN - 2
      invariant k <= NINE && digits == point - k
      invariant 0.0 <= value < 10.0 && Round(buf[..], i, value, k, acc, p)
      invariant i == at + k + if point <= k then 1 else 0
    {
      ghost var contents, whole, i0 := buf[..], value, i;
      i, value := EmitDigit(buf, i, value, digits);
      NextRound(contents, buf[..], i0, i, whole, value, k, acc, p);
      digits := digits - 1;
      acc := 10 * acc + whole.Floor;
      k := k + 1;
    }
    LastRound(buf[..], i, value, acc, p);
  }

  lemma LastRound(contents: string, i: nat, value: real, acc: nat, p: Print)
    requires Round(contents, i, value, NINE, acc, p) && i <= |p.rest|
    ensures acc == (p.first * 100000000.0).Floor
    ensures i == |Shown(p.v, acc, NINE, p.point)| && contents == Shown(p.v, acc, NINE, p.point) + p.rest[i..]
  {
    NineDigits(p.first, acc, value);
  }

  /** The text of v goes to the front of the buffer, closed by a NUL; the rest of the buffer is left alone. */
  method PrintDouble(buf: array<char>, v: real)
    requires buf.Length >= NINE + 3
    modifies buf
    ensures |Rendered(v)| <= NINE + 2
    ensures buf[..] == Rendered(v) + ['\0'] + old(buf[..])[|Rendered(v)| + 1..]
  {
    ghost var initial := buf[..];
    var i, value := 0, v;
    if value < 0.0 {
      buf[i] := '-';
      i, value := i + 1, value * -1.0;
    }
    assert value == AbsReal(v);
    assert buf[..] == SignText(v) + initial[i..];
    var digits: nat;
    value, digits := CountDigits(value);
    ghost var p := Print(v, value, digits, initial);
    assert Shown(v, 0, 0, digits) == SignText(v);
    assert Round(buf[..], i, value, 0, 0, p);
    hide *;
    var end, acc := EmitDigits(buf, i, value, digits, p);
    RenderedWhen(v, value, digits, acc);
    CloseText(Rendered(v), initial, end);
    buf[end] := '\0';
  }

  lemma CloseText(text: string, initial: string, end: nat)
    requires end == |text| < |initial|
    ensures (text + initial[end..])[end := '\0'] == text + ['\0'] + initial[end + 1..]
  {
  }

  lemma RenderedWhen(v: real, first: real, digits: nat, acc: nat)
    requires first == Leading(AbsReal(v)) && digits == IntDigits(AbsReal(v))
    requires acc == (first * 100000000.0).Floor
    ensures Rendered(v) == Shown(v, acc, NINE, digits) && |Rendered(v)| <= NINE + 2
  {
    hide Leading, IntDigits, Shown;
  }

  lemma TenthIsSmaller(a: real)
    requires a >= 10.0
    ensures 0 <= (a / 10.0).Floor < a.Floor
  {
    assert a / 10.0 <= a - 9.0;
  }

  lemma NextDigit(v: real, acc: nat, d: nat, next: nat, k: nat, point: nat)
    requires d < 10 && point >= 1 && next == 10 * acc + d
    ensures Shown(v, next, k + 1, point) == Shown(v, acc, k, point) + Piece(d, point - k == 1)
  {
    assert next / 10 == acc && next % 10 == d;
    var s, s' := Digits(acc, k), Digits(next, k + 1);
    if point <= k {
      assert s'[..point] == s[..point] && s'[point..] == s[point..] + [DigitChar(d)];
    } else if point == k + 1 {
      assert s'[..point] == s' && s'[point..] == "";
    }
  }

  lemma NineDigits(first: real, acc: nat, value: real)
    requires 0.0 <= value < 10.0 && Times10(first, NINE) == 10.0 * acc as real + value
    ensures (first * 100000000.0).Floor == acc
  {
    EightPlaces(first);
    assert Times10(first, NINE) == 10.0 * Times10(first, 8);
  }

  lemma EightPlaces(a: real)
    ensures Times10(a, 8) == a * 100000000.0
  {
    assert Times10(a, 3) == 10.0 * Times10(a, 2) && Times10(a, 2) == 10.0 * Times10(a, 1);
    assert Times10(a, 6) == 10.0 * Times10(a, 5) && Times10(a, 5) == 10.0 * Times10(a, 4);
    assert Times10(a, 4) == 10.0 * Times10(a, 3) && Times10(a, 7) == 10.0 * Times10(a, 6);
  }

  // ---------------------------------------------------------------- reading the text back

  datatype Numeric = Numeric(mantissa: nat, point: bool, places: nat)

  predicate IsDigit(c: char) { '0' <= c <= '9' }

  function DigitValue(c: char): nat
    requires IsDigit(c)
  {
    c as int - '0' as int
  }

  predicate Numeral(s: string)
  {
    forall i :: 0 <= i < |s| ==> IsDigit(s[i]) || s[i] == '.'
  }

  /** The textbook meaning of a decimal numeral: digits shift the mantissa, digits behind the point count places. */
  function Read(s: string): Numeric
    requires Numeral(s)
  {
    if s == "" then Numeric(0, false, 0)
    else
      var c, r := s[|s| - 1], Read(s[..|s| - 1]);
      if c == '.' then r.(point := true)
      else Numeric(10 * r.mantissa + DigitValue(c), r.point, if r.point then r.places + 1 else 0)
  }

  function ValueOf(s: string): real
    requires Numeral(s)
  {
    Over10(Read(s).mantissa as real, Read(s).places)
  }

  lemma WithPointAppend(s: string, c: char, at: nat)
    requires at <= |s|
    ensures WithPoint(s + [c], at) == WithPoint(s, at) + [c]
  {
    assert (s + [c])[..at] == s[..at] && (s + [c])[at..] == s[at..] + [c];
  }

  lemma WithPointAtEnd(s: string)
    ensures WithPoint(s, |s|) == s + ['.']
  {
  }

  lemma {:induction false} ReadWithoutPoint(s: string)
    requires Numeral(s) && '.' !in s
    ensures !Read(s).point && Read(s).places == 0
  {
    if s != "" { ReadWithoutPoint(s[..|s| - 1]); }
  }

  lemma PlainParts(s: string)
    requires Numeral(s) && '.' !in s && s != ""
    ensures var k := |s| - 1;
            s == s[..k] + [s[k]] && Numeral(s[..k]) && '.' !in s[..k] && IsDigit(s[k]) && s[k] != '.'
  {
  }

  lemma NumeralAppend(s: string, c: char)
    requires Numeral(s) && (IsDigit(c) || c == '.')
    ensures Numeral(s + [c])
    ensures Read(s + [c])
            == if c == '.' then Read(s).(point := true)
               else Numeric(10 * Read(s).mantissa + DigitValue(c), Read(s).point,
                            if Read(s).point then Read(s).places + 1 else 0)
  {
    assert (s + [c])[..|s|] == s;
  }

  lemma {:induction false} ReadDigits(number: nat, n: nat)
    requires number < Pow10(n)
    ensures Numeral(Digits(number, n)) && '.' !in Digits(number, n)
    ensures Read(Digits(number, n)) == Numeric(number, false, 0)
  {
    if n > 0 {
      hide Read, Numeral;
      ReadDigits(number / 10, n - 1);
      DigitCharReads(number % 10);
      NumeralAppend(Digits(number / 10, n - 1), DigitChar(number % 10));
    }
  }

  lemma DigitCharReads(d: nat)
    requires d < 10
    ensures IsDigit(DigitChar(d)) && DigitChar(d) != '.' && DigitValue(DigitChar(d)) == d
  {
  }

  /** A point behind the first digits does not change the mantissa and counts the digits behind it. */
  lemma {:induction false} ReadWithPoint(s: string, at: nat)
    requires Numeral(s) && '.' !in s && at <= |s|
    ensures Numeral(WithPoint(s, at))
    ensures !Read(s).point && Read(s).places == 0
    ensures Read(WithPoint(s, at)) == Numeric(Read(s).mantissa, true, |s| - at)
    decreases |s|
  {
    ReadWithoutPoint(s);
    hide Read, Numeral, WithPoint, IsDigit;
    if at == |s| {
      WithPointAtEnd(s);
      NumeralAppend(s, '.');
    } else {
      PlainParts(s);
      var init, last := s[..|s| - 1], s[|s| - 1];
      ReadWithPoint(init, at);
      WithPointAppend(init, last, at);
      NumeralAppend(init, last);
      NumeralAppend(WithPoint(init, at), last);
    }
  }

  // ---------------------------------------------------------------- powers of ten

  lemma {:induction false} LeadingScale(a: real)
    requires a >= 0.0
    ensures a == Times10(Leading(a), IntDigits(a) - 1)
    decreases a.Floor
  {
    if a >= 10.0 {
      TenthIsSmaller(a);
      LeadingScale(a / 10.0);
    }
  }

  lemma {:induction false} Times10Adds(a: real, m: nat, n: nat)
    ensures Times10(Times10(a, m), n) == Times10(a, m + n)
  {
    if n > 0 { Times10Adds(a, m, n - 1); }
  }

  lemma {:induction false} Times10Subtracts(a: real, b: real, n: nat)
    ensures Times10(a - b, n) == Times10(a, n) - Times10(b, n)
    ensures a <= b <==> Times10(a, n) <= Times10(b, n)
  {
    if n > 0 { Times10Subtracts(a, b, n - 1); }
  }

  lemma {:induction false} Times10Cancels(a: real, n: nat)
    ensures Times10(Over10(a, n), n) == a
  {
    if n > 0 {
      Times10Cancels(a, n - 1);
      var x := Over10(a, n);
      Times10Adds(x, 1, n - 1);
      assert Times10(x, 1) == 10.0 * x == Over10(a, n - 1);
    }
  }

  lemma {:induction false} Times10Grows(m: nat, n: nat)
    requires m <= n
    ensures 1.0 <= Times10(1.0, m) <= Times10(1.0, n)
  {
    if n > 0 { Times10Grows(if m == n then m - 1 else m, n - 1); }
  }

  /** IntDigits counts integer digits: powers of ten enclose a. */
  lemma {:induction false} IntDigitsEncloses(a: real)
    requires a >= 0.0
    ensures a < Times10(1.0, IntDigits(a))
    ensures IntDigits(a) > 1 ==> Times10(1.0, IntDigits(a) - 1) <= a
    decreases a.Floor
  {
    if a >= 10.0 {
      TenthIsSmaller(a);
      IntDigitsEncloses(a / 10.0);
      if IntDigits(a / 10.0) == 1 { assert Times10(1.0, 1) == 10.0; }
    }
  }

  lemma NineIntDigitsIff(a: real)
    requires a >= 0.0
    ensures IntDigits(a) <= NINE <==> a < 1000000000.0
  {
    IntDigitsEncloses(a);
    EightPlaces(1.0);
    assert Times10(1.0, NINE) == 10.0 * Times10(1.0, 8);
    if IntDigits(a) <= NINE { Times10Grows(IntDigits(a), NINE); } else { Times10Grows(NINE, IntDigits(a) - 1); }
  }

  /** The unsigned part of the rendered text. */
  function Unsigned(v: real): string { WithPoint(Digits(Mantissa(v), NINE), IntDigits(AbsReal(v))) }

  lemma MantissaFits(v: real)
    ensures Mantissa(v) < Pow10(NINE)
  {
    assert Pow10(3) == 1000 && Pow10(6) == 1000 * Pow10(3) && Pow10(9) == 1000 * Pow10(6);
  }

  lemma UnsignedReads(v: real)
    requires AbsReal(v) < 1000000000.0
    ensures IntDigits(AbsReal(v)) <= NINE && |Unsigned(v)| == NINE + 1 && Numeral(Unsigned(v))
    ensures Read(Unsigned(v)) == Numeric(Mantissa(v), true, NINE - IntDigits(AbsReal(v)))
    ensures forall i :: 0 <= i <= NINE ==> (Unsigned(v)[i] == '.' <==> i == IntDigits(AbsReal(v)))
  {
    NineIntDigitsIff(AbsReal(v));
    MantissaFits(v);
    ReadDigits(Mantissa(v), NINE);
    ReadWithPoint(Digits(Mantissa(v), NINE), IntDigits(AbsReal(v)));
  }

  /** Main result: below 10^9 the text is an optional sign and a numeral of nine digits with one point behind
      the integer digits, and its value is the magnitude truncated at the last place. */
  lemma RenderedIsTruncation(v: real)
    requires AbsReal(v) < 1000000000.0
    ensures Rendered(v) == SignText(v) + Unsigned(v) && |Unsigned(v)| == NINE + 1 && Numeral(Unsigned(v))
    ensures forall i :: 0 <= i <= NINE ==> (Unsigned(v)[i] == '.' <==> i == IntDigits(AbsReal(v)))
    ensures var places := Read(Unsigned(v)).places;
            && places == NINE - IntDigits(AbsReal(v))
            && 0.0 <= AbsReal(v) - ValueOf(Unsigned(v))
            && Times10(AbsReal(v) - ValueOf(Unsigned(v)), places) < 1.0
  {
    UnsignedReads(v);
    ScaledMagnitude(v);
    Truncation(AbsReal(v), Mantissa(v), NINE - IntDigits(AbsReal(v)));
  }

  lemma ScaledMagnitude(v: real)
    requires IntDigits(AbsReal(v)) <= NINE
    ensures Times10(AbsReal(v), NINE - IntDigits(AbsReal(v))).Floor == Mantissa(v)
  {
    var a, d := AbsReal(v), IntDigits(AbsReal(v));
    LeadingScale(a);
    Times10Adds(Leading(a), d - 1, NINE - d);
    EightPlaces(Leading(a));
  }

  lemma Truncation(a: real, m: nat, places: nat)
    requires Times10(a, places).Floor == m
    ensures 0.0 <= a - Over10(m as real, places)
    ensures Times10(a - Over10(m as real, places), places) < 1.0
  {
    var x := Over10(m as real, places);
    Times10Cancels(m as real, places);
    Times10Subtracts(x, a, places);
    Times10Subtracts(a, x, places);
  }

  /** From 10^9 on the point is lost: the text has one exactly below that bound, and above it the numeral reads
      as at most a tenth of the number. */
  lemma PointIsLostIff(v: real)
    ensures '.' in Rendered(v) <==> AbsReal(v) < 1000000000.0
    ensures AbsReal(v) >= 1000000000.0 ==>
              Numeral(Unsigned(v)) && 10.0 * ValueOf(Unsigned(v)) <= AbsReal(v)
  {
    var a, d, m := AbsReal(v), IntDigits(AbsReal(v)), Mantissa(v);
    NineIntDigitsIff(a);
    MantissaFits(v);
    ReadDigits(m, NINE);
    if d <= NINE {
      UnsignedReads(v);
      assert Rendered(v)[|SignText(v)| + d] == '.';
    } else {
      assert Unsigned(v) == Digits(m, NINE);
      LeadingScale(a);
      LeadingBelow(Leading(a), d);
    }
  }

  lemma LeadingBelow(l: real, d: nat)
    requires l >= 0.0 && d > NINE
    ensures l * 1000000000.0 <= Times10(l, d - 1)
  {
    EightPlaces(l);
    assert Times10(l, NINE) == 10.0 * Times10(l, 8);
    Times10Adds(l, NINE, d - 1 - NINE);
    AtLeastItself(Times10(l, NINE), d - 1 - NINE);
  }

  lemma {:induction false} AtLeastItself(a: real, n: nat)
    requires a >= 0.0
    ensures a <= Times10(a, n)
  {
    if n > 0 { AtLeastItself(a, n - 1); }
  }

  // ---------------------------------------------------------------- the sign

  /** The text starts with a minus sign exactly for negative numbers. */
  lemma SignIsShownIff(v: real)
    ensures Rendered(v) != "" && (Rendered(v)[0] == '-' <==> v < 0.0)
  {
    MantissaFits(v);
    FirstDigit(Mantissa(v), NINE, IntDigits(AbsReal(v)));
    hide Digits, WithPoint, Mantissa, IntDigits;
  }

  lemma FirstDigit(number: nat, n: nat, at: nat)
    requires number < Pow10(n) && n >= 1 && at >= 1
    ensures WithPoint(Digits(number, n), at) != "" && WithPoint(Digits(number, n), at)[0] != '-'
  {
    ReadDigits(number, n);
    hide Digits;
  }

  predicate SignedNumeral(s: string) { s != "" && Numeral(if s[0] == '-' then s[1..] else s) }

  /** The value of a numeral with an optional minus sign. */
  function SignedValue(s: string): real
    requires SignedNumeral(s)
  {
    if s[0] == '-' then -ValueOf(s[1..]) else ValueOf(s)
  }

  lemma SignSplitsOff(v: real)
    requires AbsReal(v) < 1000000000.0
    ensures SignedNumeral(Rendered(v)) && Numeral(Unsigned(v))
    ensures SignedValue(Rendered(v)) == if v < 0.0 then -ValueOf(Unsigned(v)) else ValueOf(Unsigned(v))
  {
    SignIsShownIff(v);
    UnsignedReads(v);
    assert Rendered(v) == SignText(v) + Unsigned(v);
    hide Rendered, Unsigned, Numeral;
    if v < 0.0 { assert Rendered(v)[1..] == Unsigned(v); } else { assert Rendered(v) == Unsigned(v); }
  }

  /** Main result for signed numbers: below 10^9 the text, read back with its sign, is the number truncated towards
      zero at the last of its places. */
  lemma TextReadsBack(v: real)
    requires AbsReal(v) < 1000000000.0
    ensures SignedNumeral(Rendered(v))
    ensures var x, places := SignedValue(Rendered(v)), NINE - IntDigits(AbsReal(v));
            && IntDigits(AbsReal(v)) <= NINE
            && (v >= 0.0 ==> 0.0 <= x <= v && Times10(v - x, places) < 1.0)
            && (v <= 0.0 ==> v <= x <= 0.0 && Times10(x - v, places) < 1.0)
  {
    UnsignedReads(v);
    RenderedIsTruncation(v);
    SignSplitsOff(v);
    NonNegativeValue(Unsigned(v));
    hide Rendered, Unsigned, ValueOf, SignedValue, IntDigits, Times10, Read;
  }

  lemma {:induction false} Over10NonNegative(a: real, n: nat)
    requires a >= 0.0
    ensures Over10(a, n) >= 0.0
  {
    if n > 0 { Over10NonNegative(a, n - 1); }
  }

  lemma NonNegativeValue(s: string)
    requires Numeral(s)
    ensures ValueOf(s) >= 0.0
  {
    Over10NonNegative(Read(s).mantissa as real, Read(s).places);
  }
}
