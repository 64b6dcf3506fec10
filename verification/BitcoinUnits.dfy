/**
 Amounts as text (hub-qt/bitcoinunits.cpp, hub-qt/bitcoinunits.h): a decimal printer with digit grouping and
 a parser that ignores spaces and refuses more than 18 characters.

 Qt's string operations are modelled by what they compute; toLongLong accepts optional white space around an
 optional sign and decimal digits, and refuses values outside 64 bits.
 */
module BitcoinUnits {
  import opened Decimals
  import opened Options
  import opened Sequences

  const BTC: int := 0
  const MBTC: int := 1
  const UBTC: int := 2

  const THIN_SPACE: char := '\U{2009}'
  const MAX_LENGTH := 18
  const MAX_MONEY: int := 21000000 * 100000000

  datatype SeparatorStyle = SeparatorNever | SeparatorStandard | SeparatorAlways

  predicate Valid(unit: int) { unit == BTC || unit == MBTC || unit == UBTC }

  /** Satoshis per unit. */
  function Factor(unit: int): int {
    if unit == MBTC then 100000 else if unit == UBTC then 100 else 100000000
  }

  function DecimalsOf(unit: int): nat {
    if unit == BTC then 8 else if unit == MBTC then 5 else if unit == UBTC then 2 else 0
  }

  lemma FactorIsPowerOfTen(unit: int)
    requires Valid(unit)
    ensures Factor(unit) == Pow10(DecimalsOf(unit))
  {
    assert Pow10(0) == 1 && Pow10(1) == 10 && Pow10(2) == 100;
    assert Pow10(3) == 1000 && Pow10(4) == 10000 && Pow10(5) == 100000;
    assert Pow10(6) == 1000000 && Pow10(7) == 10000000 && Pow10(8) == 100000000;
  }

  // ---------------------------------------------------------------- format

  /** The digits with a thin space before every group of three counted from the right. */
  function Grouped(q: string): string {
    if |q| <= 3 then q else Grouped(q[..|q| - 3]) + [THIN_SPACE] + q[|q| - 3..]
  }

  predicate Separated(style: SeparatorStyle, q: string) {
    style.SeparatorAlways? || (style.SeparatorStandard? && |q| > 4)
  }

  function Abs(n: int): nat { if n > 0 then n else -n }

  function SignText(n: int, plus: bool): string { if n < 0 then "-" else if plus && n > 0 then "+" else "" }

  function Whole(unit: int, n: int): string { Number(Abs(n) / Factor(unit)) }

  function Fraction(unit: int, n: int): string { PadLeft(Number(Abs(n) % Factor(unit)), DecimalsOf(unit), '0') }

  function Shown(style: SeparatorStyle, q: string): string { if Separated(style, q) then Grouped(q) else q }

  function Joined(sign: string, whole: string, fraction: string): string { sign + whole + "." + fraction }

  function Format(unit: int, n: int, plus: bool, style: SeparatorStyle): string {
    if !Valid(unit) then "" else Joined(SignText(n, plus), Shown(style, Whole(unit, n)), Fraction(unit, n))
  }

  lemma {:induction false} GroupStep(q: string, p: nat)
    requires 3 < p <= |q|
    ensures Grouped(q[..p]) == Grouped(q[..p - 3]) + ([THIN_SPACE] + q[p - 3..p])
  {
    var head := q[..p];
    assert head[..p - 3] == q[..p - 3] && head[p - 3..] == q[p - 3..p];
  }

  /** The insertion loop: separators are inserted from the right, at positions counted in the original digits. */
  method InsertSeparators(q: string) returns (str: string)
    ensures str == Grouped(q)
  {
    str := q;
    var i := 3;
    ghost var rest := "";
    assert q[..|q|] == q && Grouped(q) + rest == Grouped(q) && q + rest == q;
    while i < |q|
      invariant 3 <= i && (i == 3 || i <= |q| + 2)
      invariant |q| >= i - 3 && str == q[..|q| - (i - 3)] + rest
      invariant Grouped(q) == Grouped(q[..|q| - (i - 3)]) + rest
    {
      var at := |q| - i;
      GroupStep(q, at + 3);
      ghost var group := [THIN_SPACE] + q[at..at + 3];
      assert str[..at] == q[..at] && str[at..] == q[at..at + 3] + rest;
      str := str[..at] + [THIN_SPACE] + str[at..];
      assert str == q[..at] + (group + rest);
      assert Grouped(q) == Grouped(q[..at]) + (group + rest);
      rest := group + rest;
      i := i + 3;
    }
  }

  method FormatAmount(unit: int, n: int, plus: bool, style: SeparatorStyle) returns (text: string)
    ensures text == Format(unit, n, plus, style)
  {
    if !Valid(unit) { return ""; }
    var coin := Factor(unit);
    var abs := if n > 0 then n else -n;
    var str := Number(abs / coin);
    var remainder := PadLeft(Number(abs % coin), DecimalsOf(unit), '0');
    var size := |str|;
    if style == SeparatorAlways || (style == SeparatorStandard && size > 4) {
      str := InsertSeparators(str);
    }
    if n < 0 {
      str := "-" + str;
    } else if plus && n > 0 {
      str := "+" + str;
    } else {
      assert "" + str == str;
    }
    text := str + "." + remainder;
  }

  // ---------------------------------------------------------------- parse

  function Without(s: string, c: char): string {
    if s == "" then "" else (if s[0] == c then "" else [s[0]]) + Without(s[1..], c)
  }

  function RemoveSpaces(s: string): string { Without(Without(s, ' '), THIN_SPACE) }

  /** QString::split at dots; empty parts are kept. */
  function SplitAtDots(s: string): (parts: seq<string>)
    ensures |parts| > 0
  {
    if s == "" then [""]
    else
      var rest := SplitAtDots(s[1..]);
      if s[0] == '.' then [""] + rest else [[s[0]] + rest[0]] + rest[1..]
  }

  /** QChar::isSpace. */
  predicate IsSpace(c: char) {
    || c == ' ' || '\t' <= c <= '\r' || c == '\U{0085}' || c == '\U{00A0}' || c == '\U{1680}'
    || '\U{2000}' <= c <= '\U{200A}' || c == '\U{2028}' || c == '\U{2029}' || c == '\U{202F}' || c == '\U{205F}'
    || c == '\U{3000}'
  }

  function TrimLeft(s: string): string { if s != "" && IsSpace(s[0]) then TrimLeft(s[1..]) else s }

  function TrimRight(s: string): string { if s != "" && IsSpace(s[|s| - 1]) then TrimRight(s[..|s| - 1]) else s }

  function Unsigned(s: string): string { if s != "" && (s[0] == '-' || s[0] == '+') then s[1..] else s }

  /** QString::toLongLong, base ten. */
  function ToLongLong(s: string): Option<int> {
    var t := TrimRight(TrimLeft(s));
    var digits := Unsigned(t);
    if digits == "" || !AllDigits(digits) then None
    else
      var v := if t[0] == '-' then -(Value(digits) as int) else Value(digits);
      if -0x8000_0000_0000_0000 <= v <= 0x7fff_ffff_ffff_ffff then Some(v) else None
  }

  /** The part of parse after the text has been split at its dot. */
  function ParseParts(unit: int, whole: string, fraction: string): Option<int> {
    if |fraction| > DecimalsOf(unit) then None
    else
      var str := whole + PadRight(fraction, DecimalsOf(unit), '0');
      if |str| > MAX_LENGTH then None else ToLongLong(str)
  }

  function Parse(unit: int, text: string): Option<int> {
    if !Valid(unit) || text == "" then None
    else
      var parts := SplitAtDots(RemoveSpaces(text));
      if |parts| > 2 then None else ParseParts(unit, parts[0], if |parts| > 1 then parts[1] else "")
  }

  // ---------------------------------------------------------------- lemmas about the pieces

  lemma {:induction false} WithoutConcat(a: string, b: string, c: char)
    ensures Without(a + b, c) == Without(a, c) + Without(b, c)
    decreases a
  {
    if a == "" {
      assert a + b == b;
      JoinEmpty(Without(b, c));
    } else {
      var tail := a[1..];
      var head := if a[0] == c then "" else [a[0]];
      assert (a + b)[1..] == tail + b && (a + b)[0] == a[0];
      WithoutConcat(tail, b, c);
      assert Without(a + b, c) == head + Without(tail + b, c);
      JoinAssociates(head, Without(tail, c), Without(b, c));
    }
  }

  lemma {:induction false} WithoutNone(s: string, c: char)
    requires c !in s
    ensures Without(s, c) == s
  {
    if s != "" { WithoutNone(s[1..], c); }
  }

  lemma {:induction false} RemoveSpacesConcat(a: string, b: string)
    ensures RemoveSpaces(a + b) == RemoveSpaces(a) + RemoveSpaces(b)
  {
    WithoutConcat(a, b, ' ');
    WithoutConcat(Without(a, ' '), Without(b, ' '), THIN_SPACE);
  }

  predicate Spaceless(s: string) { ' ' !in s && THIN_SPACE !in s }

  lemma {:induction false} RemoveNoSpaces(s: string)
    requires Spaceless(s)
    ensures RemoveSpaces(s) == s
  {
    WithoutNone(s, ' ');
    WithoutNone(s, THIN_SPACE);
  }

  lemma {:induction false} ThinSpaceIsRemoved()
    ensures RemoveSpaces([THIN_SPACE]) == ""
  {
    assert [THIN_SPACE][1..] == "";
    WithoutNone([THIN_SPACE], ' ');
    assert Without([THIN_SPACE], THIN_SPACE) == "" + Without("", THIN_SPACE);
  }

  lemma {:induction false} DigitsAreSpaceless(s: string)
    requires AllDigits(s)
    ensures Spaceless(s) && '.' !in s
  {
  }

  /** Removing the separators undoes the grouping. */
  lemma {:induction false} UngroupedDigits(q: string)
    requires AllDigits(q)
    ensures RemoveSpaces(Grouped(q)) == q
  {
    DigitsAreSpaceless(q);
    if |q| <= 3 {
      RemoveNoSpaces(q);
    } else {
      var head, tail := q[..|q| - 3], q[|q| - 3..];
      UngroupedDigits(head);
      DigitsAreSpaceless(tail);
      RemoveNoSpaces(tail);
      ThinSpaceIsRemoved();
      RemoveSpacesConcat(Grouped(head), [THIN_SPACE]);
      RemoveSpacesConcat(Grouped(head) + [THIN_SPACE], tail);
      assert head + "" + tail == q;
    }
  }

  lemma {:induction false} SplitNoDot(s: string)
    requires '.' !in s
    ensures SplitAtDots(s) == [s]
  {
    if s != "" {
      SplitNoDot(s[1..]);
      assert [s[0]] + s[1..] == s;
    }
  }

  lemma {:induction false} SplitOneDot(a: string, b: string)
    requires '.' !in a && '.' !in b
    ensures SplitAtDots(a + "." + b) == [a, b]
    decreases a
  {
    var s := a + "." + b;
    if a == "" {
      assert s == "." + b && s[1..] == b;
      SplitNoDot(b);
    } else {
      assert s[1..] == a[1..] + "." + b;
      SplitOneDot(a[1..], b);
      assert [s[0]] + a[1..] == a;
    }
  }

  predicate IsSign(sign: string) { sign == "" || sign == "-" || sign == "+" }

  lemma {:induction false} DigitsAreNotSpaces(c: char)
    requires IsDigit(c) || c == '-' || c == '+'
    ensures !IsSpace(c)
  {
  }

  function Negated(sign: string, v: int): int { if sign == "-" then -v else v }

  /** A signed digit string of at most 18 characters is read as the number it denotes. */
  lemma {:induction false} ReadSignedDigits(sign: string, digits: string)
    requires IsSign(sign) && digits != "" && AllDigits(digits) && |digits| <= MAX_LENGTH
    ensures ToLongLong(sign + digits) == Some(Negated(sign, Value(digits)))
  {
    var s := sign + digits;
    DigitsAreNotSpaces(s[0]);
    DigitsAreNotSpaces(s[|s| - 1]);
    assert TrimLeft(s) == s && TrimRight(s) == s;
    assert Unsigned(s) == digits by {
      if sign == "" { assert s == digits; } else { assert s[1..] == digits; }
    }
    ValueBound(digits);
    PowMonotone(|digits|, MAX_LENGTH);
    Pow18();
  }

  lemma {:induction false} Pow18()
    ensures Pow10(18) == 1_000_000_000_000_000_000
  {
    PowAdd(9, 9);
    assert Pow10(9) == 1_000_000_000 by {
      assert Pow10(3) == 1000 by { assert Pow10(0) == 1 && Pow10(1) == 10 && Pow10(2) == 100; }
      PowAdd(3, 3);
      PowAdd(6, 3);
    }
  }

  // ---------------------------------------------------------------- what is accepted

  lemma {:induction false} TrimShorter(s: string)
    ensures |TrimLeft(s)| <= |s| && |TrimRight(s)| <= |s|
  {
    if s != "" {
      if IsSpace(s[0]) { TrimShorter(s[1..]); }
      if IsSpace(s[|s| - 1]) { TrimShorter(s[..|s| - 1]); }
    }
  }

  /** Every text the parser accepts has a value below 10^18 in magnitude. */
  lemma {:induction false} AcceptedValueIsBounded(unit: int, text: string)
    requires Parse(unit, text).Some?
    ensures Abs(Parse(unit, text).value) < Pow10(18)
  {
    var parts := SplitAtDots(RemoveSpaces(text));
    var str := parts[0] + PadRight(if |parts| > 1 then parts[1] else "", DecimalsOf(unit), '0');
    TrimShorter(str);
    TrimShorter(TrimLeft(str));
    var digits := Unsigned(TrimRight(TrimLeft(str)));
    ValueBound(digits);
    PowMonotone(|digits|, 18);
  }

  lemma {:induction false} WholeAndDecimals(unit: int, whole: string, fraction: string)
    requires Valid(unit) && AllDigits(whole) && AllDigits(fraction) && |fraction| <= DecimalsOf(unit)
    ensures var digits := whole + PadRight(fraction, DecimalsOf(unit), '0');
            && AllDigits(digits) && |digits| == |whole| + DecimalsOf(unit)
            && Value(digits) == Value(whole) * Factor(unit) + Value(fraction) * Pow10(DecimalsOf(unit) - |fraction|)
  {
    var d := DecimalsOf(unit);
    PadRightValue(fraction, d);
    ValueConcat(whole, PadRight(fraction, d, '0'));
    FactorIsPowerOfTen(unit);
  }

  lemma {:induction false} PartsAreExact(unit: int, sign: string, whole: string, fraction: string)
    requires Valid(unit) && IsSign(sign) && AllDigits(whole) && AllDigits(fraction)
    ensures ParseParts(unit, sign + whole, fraction) ==
            if |fraction| <= DecimalsOf(unit) && |sign| + |whole| + DecimalsOf(unit) <= MAX_LENGTH
            then Some(Negated(sign, Value(whole) * Factor(unit) +
                              Value(fraction) * Pow10(DecimalsOf(unit) - |fraction|)))
            else None
  {
    var d := DecimalsOf(unit);
    if |fraction| <= d {
      var padded := PadRight(fraction, d, '0');
      WholeAndDecimals(unit, whole, fraction);
      assert (sign + whole) + padded == sign + (whole + padded);
      if |sign| + |whole| + d <= MAX_LENGTH { ReadSignedDigits(sign, whole + padded); }
    }
  }

  function Written(sign: string, whole: string, fraction: string, dot: bool): string {
    if dot then Joined(sign, whole, fraction) else sign + whole
  }

  lemma {:induction false} WrittenSplits(sign: string, whole: string, fraction: string, dot: bool)
    requires IsSign(sign) && AllDigits(whole) && AllDigits(fraction) && (dot || fraction == "")
    ensures SplitAtDots(Written(sign, whole, fraction, dot)) == if dot then [sign + whole, fraction] else [sign + whole]
  {
    DigitsAreSpaceless(whole);
    DigitsAreSpaceless(fraction);
    assert '.' !in sign + whole;
    if dot { SplitOneDot(sign + whole, fraction); } else { SplitNoDot(sign + whole); }
  }

  /** Text of the form [sign]digits[.digits], with spaces anywhere, is accepted exactly when it is short enough, and
      its value is then the exact decimal times the unit's factor. */
  lemma {:induction false} DecimalTextIsExact(unit: int, text: string, sign: string, whole: string, fraction: string,
                                              dot: bool)
    requires Valid(unit) && text != "" && IsSign(sign) && AllDigits(whole) && AllDigits(fraction)
             && (dot || fraction == "")
    requires RemoveSpaces(text) == Written(sign, whole, fraction, dot)
    ensures Parse(unit, text) ==
            if |fraction| <= DecimalsOf(unit) && |sign| + |whole| + DecimalsOf(unit) <= MAX_LENGTH
            then Some(Negated(sign, Value(whole) * Factor(unit) +
                              Value(fraction) * Pow10(DecimalsOf(unit) - |fraction|)))
            else None
  {
    WrittenSplits(sign, whole, fraction, dot);
    assert Parse(unit, text) == ParseParts(unit, sign + whole, fraction);
    PartsAreExact(unit, sign, whole, fraction);
  }

  // ---------------------------------------------------------------- round trip

  lemma {:induction false} ShownDigits(style: SeparatorStyle, q: string)
    requires AllDigits(q)
    ensures RemoveSpaces(Shown(style, q)) == q
  {
    UngroupedDigits(q);
    DigitsAreSpaceless(q);
    RemoveNoSpaces(q);
  }

  lemma {:induction false} JoinedWithoutSpaces(sign: string, shown: string, q: string, fraction: string)
    requires IsSign(sign) && RemoveSpaces(shown) == q && AllDigits(fraction)
    ensures RemoveSpaces(Joined(sign, shown, fraction)) == Joined(sign, q, fraction)
  {
    DigitsAreSpaceless(fraction);
    RemoveNoSpaces(sign);
    RemoveNoSpaces(".");
    RemoveNoSpaces(fraction);
    RemoveSpacesConcat(sign, shown);
    RemoveSpacesConcat(sign + shown, ".");
    RemoveSpacesConcat(sign + shown + ".", fraction);
  }

  lemma {:induction false} FormatWithoutSpaces(unit: int, n: int, plus: bool, style: SeparatorStyle)
    requires Valid(unit)
    ensures RemoveSpaces(Format(unit, n, plus, style)) == Joined(SignText(n, plus), Whole(unit, n), Fraction(unit, n))
  {
    ShownDigits(style, Whole(unit, n));
    FractionFills(unit, n);
    JoinedWithoutSpaces(SignText(n, plus), Shown(style, Whole(unit, n)), Whole(unit, n), Fraction(unit, n));
  }

  lemma {:induction false} FractionFills(unit: int, n: int)
    requires Valid(unit)
    ensures AllDigits(Fraction(unit, n)) && |Fraction(unit, n)| == DecimalsOf(unit)
            && Value(Fraction(unit, n)) == Abs(n) % Factor(unit)
  {
    var r := Abs(n) % Factor(unit);
    FactorIsPowerOfTen(unit);
    NumberLength(r, DecimalsOf(unit));
    PadLeftValue(Number(r), DecimalsOf(unit));
    ValueOfNumber(r);
  }

  /** The whole part leaves room for the decimals exactly when the amount is small enough. */
  lemma {:induction false} WholeFits(unit: int, n: int, room: nat)
    requires Valid(unit) && room > DecimalsOf(unit)
    ensures |Whole(unit, n)| + DecimalsOf(unit) <= room <==> Abs(n) < Pow10(room)
  {
    var d := DecimalsOf(unit);
    var f := Factor(unit);
    FactorIsPowerOfTen(unit);
    NumberLength(Abs(n) / f, room - d);
    PowAdd(room - d, d);
    DivBound(Abs(n), f, Pow10(room - d));
  }

  lemma {:induction false} DivBound(a: nat, f: int, b: nat)
    requires f > 0
    ensures a / f < b <==> a < b * f
  {
    if a / f < b {
      assert (a / f + 1) * f <= b * f;
      assert a == (a / f) * f + a % f;
    } else {
      assert b * f <= (a / f) * f;
      assert a == (a / f) * f + a % f;
    }
  }

  /** The printed whole part and fraction make up the amount. */
  lemma {:induction false} PartsRecombine(unit: int, n: int, plus: bool)
    requires Valid(unit)
    ensures AllDigits(Fraction(unit, n)) && |Fraction(unit, n)| == DecimalsOf(unit)
    ensures Negated(SignText(n, plus), Value(Whole(unit, n)) * Factor(unit) + Value(Fraction(unit, n)) * Pow10(0)) == n
  {
    FractionFills(unit, n);
    ValueOfNumber(Abs(n) / Factor(unit));
    assert Pow10(0) == 1;
    assert Value(Whole(unit, n)) == Abs(n) / Factor(unit);
    assert Abs(n) == (Abs(n) / Factor(unit)) * Factor(unit) + Abs(n) % Factor(unit);
  }

  /** Printing and parsing, for every unit, separator style, sign choice and amount: the amount comes back exactly
      when its magnitude is below 10^17, or below 10^18 and no sign is printed; otherwise the text is refused. */
  lemma {:induction false} RoundTrip(unit: int, n: int, plus: bool, style: SeparatorStyle)
    requires Valid(unit)
    ensures Parse(unit, Format(unit, n, plus, style)) ==
            if Abs(n) < Pow10(if SignText(n, plus) == "" then 18 else 17) then Some(n) else None
  {
    FormatWithoutSpaces(unit, n, plus, style);
    ParsesBack(unit, n, plus, Format(unit, n, plus, style));
    WholeFits(unit, n, 18 - |SignText(n, plus)|);
  }

  lemma {:induction false} ParsesBack(unit: int, n: int, plus: bool, text: string)
    requires Valid(unit) && text != ""
    requires RemoveSpaces(text) == Joined(SignText(n, plus), Whole(unit, n), Fraction(unit, n))
    ensures Parse(unit, text) ==
            if |SignText(n, plus)| + |Whole(unit, n)| + DecimalsOf(unit) <= MAX_LENGTH then Some(n) else None
  {
    PartsRecombine(unit, n, plus);
    AllDecimalsParse(unit, text, SignText(n, plus), Whole(unit, n), Fraction(unit, n), n);
  }

  /** Text with all decimals written out. */
  lemma {:induction false} AllDecimalsParse(unit: int, text: string, sign: string, whole: string, fraction: string,
                                            n: int)
    requires Valid(unit) && text != "" && IsSign(sign) && AllDigits(whole) && AllDigits(fraction)
             && |fraction| == DecimalsOf(unit)
    requires RemoveSpaces(text) == Joined(sign, whole, fraction)
    requires Negated(sign, Value(whole) * Factor(unit) + Value(fraction) * Pow10(0)) == n
    ensures Parse(unit, text) == if |sign| + |whole| + DecimalsOf(unit) <= MAX_LENGTH then Some(n) else None
  {
    var left := DecimalsOf(unit) - |fraction|;
    assert left == 0;
    assert Negated(sign, Value(whole) * Factor(unit) + Value(fraction) * Pow10(left)) == n;
    DecimalTextIsExact(unit, text, sign, whole, fraction, true);
  }

  /** Amounts below 10^17 survive in every unit and style. */
  lemma {:induction false} SmallAmountsRoundTrip(unit: int, n: int, plus: bool, style: SeparatorStyle)
    requires Valid(unit) && Abs(n) < Pow10(17)
    ensures Parse(unit, Format(unit, n, plus, style)) == Some(n)
  {
    RoundTrip(unit, n, plus, style);
    PowMonotone(17, 18);
  }

  // ---------------------------------------------------------------- printed texts

  lemma {:induction false} OneSatoshi(unit: int, n: int, plus: bool, style: SeparatorStyle)
    requires Valid(unit) && (n == 1 || n == -1)
    ensures Format(unit, n, plus, style) == Joined(SignText(n, plus), "0", PadLeft("1", DecimalsOf(unit), '0'))
  {
    assert Number(0) == "0" && Number(1) == "1";
    assert Abs(n) / Factor(unit) == 0 && Abs(n) % Factor(unit) == 1;
    assert Shown(style, "0") == "0";
  }

  lemma {:induction false} PaddedOne()
    ensures PadLeft("1", 8, '0') == "00000001" && PadLeft("1", 5, '0') == "00001" && PadLeft("1", 2, '0') == "01"
  {
  }

  /** One satoshi in each unit. */
  lemma {:induction false} OneSatoshiIsPrinted(plus: bool, style: SeparatorStyle)
    ensures Format(BTC, 1, plus, style) == (if plus then "+" else "") + "0" + "." + "00000001"
    ensures Format(MBTC, 1, plus, style) == (if plus then "+" else "") + "0" + "." + "00001"
    ensures Format(UBTC, 1, plus, style) == (if plus then "+" else "") + "0" + "." + "01"
    ensures Format(UBTC, -1, plus, style) == "-" + "0" + "." + "01"
  {
    PaddedOne();
    OneSatoshi(BTC, 1, plus, style);
    OneSatoshi(MBTC, 1, plus, style);
    OneSatoshi(UBTC, 1, plus, style);
    OneSatoshi(UBTC, -1, plus, style);
  }

  /** Nothing has no sign. */
  lemma {:induction false} NothingIsPrinted(plus: bool, style: SeparatorStyle)
    ensures Format(UBTC, 0, plus, style) == "" + "0" + "." + "00"
  {
    assert Number(0) == "0" && Shown(style, "0") == "0";
    PaddedNothing();
  }

  lemma {:induction false} PaddedNothing()
    ensures PadLeft("0", 2, '0') == "00"
  {
  }

  /** Thin spaces between groups of three: always, never, or for five digits and more. */
  lemma {:induction false} GroupsAreSeparated(a: string, b: string)
    requires 1 <= |a| <= 3 && |b| == 3
    ensures Shown(SeparatorNever, a + b) == a + b
    ensures Shown(SeparatorAlways, a + b) == a + ['\U{2009}'] + b
    ensures Shown(SeparatorStandard, a + b) == if |a| == 1 then a + b else a + ['\U{2009}'] + b
  {
    var q := a + b;
    assert q[..|q| - 3] == a && q[|q| - 3..] == b;
    assert Grouped(a) == a;
    assert Grouped(q) == a + [THIN_SPACE] + b;
  }

  /** One unit is so many satoshis. */
  lemma {:induction false} OneUnitIsRead(unit: int, text: string)
    requires Valid(unit) && RemoveSpaces(text) == "1" && text != ""
    ensures Parse(unit, text) == Some(if unit == 0 then 100000000 else if unit == 1 then 100000 else 100)
  {
    ValueOfOne();
    assert Written("", "1", "", false) == "1";
    DecimalTextIsExact(unit, text, "", "1", "", false);
  }

  lemma {:induction false} ValueOfOne()
    ensures AllDigits("1") && Value("1") == 1 && AllDigits("") && Value("") == 0
  {
    assert "1"[..0] == "";
  }
}
