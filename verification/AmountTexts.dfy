/**
 Which texts the amount parser accepts (parse in hub-qt/bitcoinunits.cpp), with which value, and when that
 value is the decimal that the text denotes. Ordinary and thin spaces are removed first; other blanks, such as
 tabs, are not.
 */
module AmountTexts {
  import opened Decimals
  import opened Options
  import opened Sequences
  import opened BitcoinUnits

  predicate Blanks(s: string) { forall i :: 0 <= i < |s| ==> IsSpace(s[i]) }

  /** A number with blanks around it. */
  datatype Reading = Reading(lead: string, sign: string, digits: string, trail: string) {
    function Text(): string { lead + (sign + digits) + trail }

    predicate Valid() { Blanks(lead) && IsSign(sign) && digits != "" && AllDigits(digits) && Blanks(trail) }
  }

  // ---------------------------------------------------------------- reading a number

  lemma {:induction false} TrimLeftSkips(lead: string, x: string)
    requires Blanks(lead) && (x == "" || !IsSpace(x[0]))
    ensures TrimLeft(lead + x) == x
  {
    if lead == "" {
      assert lead + x == x;
    } else {
      assert (lead + x)[0] == lead[0] && (lead + x)[1..] == lead[1..] + x;
      TrimLeftSkips(lead[1..], x);
    }
  }

  lemma {:induction false} TrimRightSkips(x: string, trail: string)
    requires Blanks(trail) && (x == "" || !IsSpace(x[|x| - 1]))
    ensures TrimRight(x + trail) == x
    decreases trail
  {
    if trail == "" {
      assert x + trail == x;
    } else {
      var init := trail[..|trail| - 1];
      assert (x + trail)[|x + trail| - 1] == trail[|trail| - 1] && (x + trail)[..|x + trail| - 1] == x + init;
      TrimRightSkips(x, init);
    }
  }

  /** Blanks around a number do not matter. */
  lemma {:induction false} BlanksAreIgnored(lead: string, x: string, trail: string)
    requires Blanks(lead) && Blanks(trail) && x != "" && !IsSpace(x[0]) && !IsSpace(x[|x| - 1])
    ensures ToLongLong(lead + x + trail) == ToLongLong(x)
  {
    JoinAssociates(lead, x, trail);
    TrimLeftSkips(lead, x + trail);
    TrimRightSkips(x, trail);
    TrimLeftSkips("", x);
    TrimRightSkips(x, "");
    assert "" + x == x && x + "" == x;
  }

  lemma {:induction false} TrimLeftSplits(s: string) returns (lead: string)
    ensures s == lead + TrimLeft(s) && Blanks(lead)
  {
    if s != "" && IsSpace(s[0]) {
      var rest := TrimLeftSplits(s[1..]);
      lead := [s[0]] + rest;
      assert s == [s[0]] + s[1..];
      JoinAssociates([s[0]], rest, TrimLeft(s[1..]));
    } else {
      lead := "";
      assert "" + s == s;
    }
  }

  lemma {:induction false} TrimRightSplits(s: string) returns (trail: string)
    ensures s == TrimRight(s) + trail && Blanks(trail)
  {
    if s != "" && IsSpace(s[|s| - 1]) {
      var init, last := s[..|s| - 1], s[|s| - 1];
      var rest := TrimRightSplits(init);
      trail := rest + [last];
      assert s == init + [last];
      JoinAssociates(TrimRight(init), rest, [last]);
    } else {
      trail := "";
      assert s + "" == s;
    }
  }

  lemma {:induction false} UnsignedSplits(t: string) returns (sign: string)
    ensures t == sign + Unsigned(t) && IsSign(sign) && (Unsigned(t) != "" ==> (sign == "-" <==> t[0] == '-'))
  {
    if t != "" && (t[0] == '-' || t[0] == '+') {
      sign := [t[0]];
    } else {
      sign := "";
      assert "" + t == t;
    }
  }

  /** What is read as a number has the form of one. */
  lemma {:induction false} ReadIsANumber(s: string) returns (r: Reading)
    requires ToLongLong(s).Some?
    ensures r.Valid() && s == r.Text() && ToLongLong(s) == Some(Negated(r.sign, Value(r.digits)))
  {
    var lead := TrimLeftSplits(s);
    var trail := TrimRightSplits(TrimLeft(s));
    var t := TrimRight(TrimLeft(s));
    var sign := UnsignedSplits(t);
    r := Reading(lead, sign, Unsigned(t), trail);
    JoinAssociates(lead, t, trail);
  }

  lemma {:induction false} EndsAreNoBlanks(sign: string, digits: string)
    requires IsSign(sign) && digits != "" && AllDigits(digits)
    ensures !IsSpace((sign + digits)[0]) && !IsSpace((sign + digits)[|sign + digits| - 1])
  {
    DigitsAreNotSpaces((sign + digits)[0]);
    DigitsAreNotSpaces((sign + digits)[|sign + digits| - 1]);
  }

  /** A number of at most 18 characters is read, blanks around it or not. */
  lemma {:induction false} NumberIsRead(r: Reading)
    requires r.Valid() && |r.Text()| <= MAX_LENGTH
    ensures ToLongLong(r.Text()) == Some(Negated(r.sign, Value(r.digits)))
  {
    EndsAreNoBlanks(r.sign, r.digits);
    BlanksAreIgnored(r.lead, r.sign + r.digits, r.trail);
    ReadSignedDigits(r.sign, r.digits);
  }

  /** The whole part and the fraction of a text, if it has at most one dot. */
  function PartsOf(text: string): Option<(string, string)> {
    var parts := SplitAtDots(RemoveSpaces(text));
    if |parts| > 2 then None else Some((parts[0], if |parts| > 1 then parts[1] else ""))
  }

  /** The characters that are read: the whole part and the fraction, filled up with zeros to the decimals of the
      unit. */
  function Filled(unit: int, whole: string, fraction: string): string {
    whole + PadRight(fraction, DecimalsOf(unit), '0')
  }

  ghost predicate ReadsAs(s: string, v: int) {
    exists r: Reading :: r.Valid() && s == r.Text() && v == Negated(r.sign, Value(r.digits))
  }

  /** For every text and every amount: the text is accepted as that amount exactly when it has at most one dot, no
      more decimals than the unit, and what is read is a number of at most 18 characters, blanks around it included,
      with that value. */
  lemma {:induction false} AcceptedIff(unit: int, text: string, v: int)
    ensures Parse(unit, text) == Some(v) <==>
            && Valid(unit) && text != "" && PartsOf(text).Some?
            && var (whole, fraction) := PartsOf(text).value;
               && |fraction| <= DecimalsOf(unit) && |whole| + DecimalsOf(unit) <= MAX_LENGTH
               && ReadsAs(Filled(unit, whole, fraction), v)
  {
    if Valid(unit) && text != "" && PartsOf(text).Some? {
      var (whole, fraction) := PartsOf(text).value;
      assert Parse(unit, text) == ParseParts(unit, whole, fraction);
      if |fraction| <= DecimalsOf(unit) && |whole| + DecimalsOf(unit) <= MAX_LENGTH {
        ReadsAsIff(Filled(unit, whole, fraction), v);
      }
    }
  }

  lemma {:induction false} ReadsAsIff(s: string, v: int)
    requires |s| <= MAX_LENGTH
    ensures ToLongLong(s) == Some(v) <==> ReadsAs(s, v)
  {
    if ToLongLong(s) == Some(v) { var r := ReadIsANumber(s); }
    if ReadsAs(s, v) {
      var r: Reading :| r.Valid() && s == r.Text() && v == Negated(r.sign, Value(r.digits));
      NumberIsRead(r);
    }
  }

  // ---------------------------------------------------------------- decimals with blanks around them

  /** The decimal [sign]whole.fraction in base units. */
  function Exact(unit: int, sign: string, whole: string, fraction: string): int
    requires Valid(unit) && AllDigits(whole) && AllDigits(fraction) && |fraction| <= DecimalsOf(unit)
  {
    Negated(sign, Value(whole) * Factor(unit) + Value(fraction) * Pow10(DecimalsOf(unit) - |fraction|))
  }

  function DigitsValue(whole: string, fraction: string): nat
    requires AllDigits(whole) && AllDigits(fraction)
  {
    ValueConcat(whole, fraction);
    Value(whole + fraction)
  }

  lemma {:induction false} FiveParts(a: string, b: string, c: string, d: string, e: string)
    ensures (a + b + c) + (d + e) == a + (b + (c + d + e))
    ensures (a + b + c) + (d + e) == a + (b + (c + d)) + e
  {
  }

  lemma {:induction false} SixParts(a: string, b: string, c: string, d: string, e: string, z: string)
    requires z + e == e + z
    ensures a + ((b + c + d + e) + z) == (a + b) + (c + (d + z)) + e
  {
    JoinAssociates(b + c + d, e, z);
    assert a + ((b + c + d) + (z + e)) == (a + b) + (c + (d + z)) + e;
  }

  lemma {:induction false} Padded(s: string, n: nat)
    requires |s| <= n
    ensures PadRight(s, n, '0') == s + Repeat('0', n - |s|)
    ensures |s| == n ==> PadRight(s, n, '0') == s
  {
    if |s| == n { assert s + Repeat('0', 0) == s; }
  }

  lemma {:induction false} Witness(r: Reading)
    requires r.Valid()
    ensures ReadsAs(r.Text(), Negated(r.sign, Value(r.digits)))
  {
  }

  lemma {:induction false} PlainReads(unit: int, lead: string, sign: string, digits: string, fraction: string)
    requires Valid(unit) && Blanks(lead) && IsSign(sign) && AllDigits(digits) && AllDigits(fraction)
    requires |fraction| <= DecimalsOf(unit)
    ensures ReadsAs(Filled(unit, lead + sign + digits, fraction), Exact(unit, sign, digits, fraction))
  {
    var padded := PadRight(fraction, DecimalsOf(unit), '0');
    WholeAndDecimals(unit, digits, fraction);
    FiveParts(lead, sign, digits, padded, "");
    assert padded + "" == padded;
    Witness(Reading(lead, sign, digits + padded, ""));
  }

  lemma {:induction false} TrailingReads(unit: int, lead: string, sign: string, digits: string, more: string,
                                         trail: string)
    requires Blanks(lead) && IsSign(sign) && AllDigits(digits) && AllDigits(more) && digits + more != ""
             && Blanks(trail)
    requires |more + trail| == DecimalsOf(unit)
    ensures ReadsAs(Filled(unit, lead + sign + digits, more + trail), Negated(sign, DigitsValue(digits, more)))
  {
    Padded(more + trail, DecimalsOf(unit));
    ValueConcat(digits, more);
    FiveParts(lead, sign, digits, more, trail);
    Witness(Reading(lead, sign, digits + more, trail));
  }

  lemma {:induction false} ZerosAfter(whole: string, lead: string, sign: string, digits: string, trail: string, n: nat)
    requires Blanks(whole + lead) && IsSign(sign) && AllDigits(digits) && Blanks(trail)
    requires if n > 0 then trail == "" else digits != ""
    ensures ReadsAs(whole + ((lead + sign + digits + trail) + Repeat('0', n)), Negated(sign, Value(digits) * Pow10(n)))
  {
    var zeros := Repeat('0', n);
    ValueOfZeros(n);
    ValueConcat(digits, zeros);
    assert zeros + trail == trail + zeros by {
      if n > 0 { assert zeros + "" == zeros == "" + zeros; } else { assert trail + "" == trail == "" + trail; }
    }
    SixParts(whole, lead, sign, digits, trail, zeros);
    Witness(Reading(whole + lead, sign, digits + zeros, trail));
  }

  lemma {:induction false} FractionReads(unit: int, whole: string, lead: string, sign: string, digits: string,
                                         trail: string)
    requires Blanks(whole) && Blanks(lead) && IsSign(sign) && AllDigits(digits) && Blanks(trail)
    requires |lead + sign + digits + trail| <= DecimalsOf(unit)
    requires if |lead + sign + digits + trail| < DecimalsOf(unit) then trail == "" else digits != ""
    ensures ReadsAs(Filled(unit, whole, lead + sign + digits + trail),
                    Negated(sign, Value(digits) * Pow10(DecimalsOf(unit) - |lead + sign + digits + trail|)))
  {
    var fraction := lead + sign + digits + trail;
    BlanksJoin(whole, lead);
    Padded(fraction, DecimalsOf(unit));
    ZerosAfter(whole, lead, sign, digits, trail, DecimalsOf(unit) - |fraction|);
  }

  lemma {:induction false} BlanksJoin(a: string, b: string)
    requires Blanks(a) && Blanks(b)
    ensures Blanks(a + b)
  {
  }

  lemma {:induction false} DigitIsNoSign(c: char)
    requires IsDigit(c)
    ensures c != '-' && c != '+'
  {
  }

  lemma {:induction false} BlankIsNoDigit(c: char)
    requires IsSpace(c)
    ensures !IsDigit(c)
  {
  }

  /** The digits are shifted by as many places as there are trailing blanks. */
  lemma {:induction false} TrailShifts(unit: int, sign: string, whole: string, fraction: string, n: nat)
    requires Valid(unit) && AllDigits(whole) && AllDigits(fraction) && |fraction| + n == DecimalsOf(unit)
    ensures Exact(unit, sign, whole, fraction) == Negated(sign, DigitsValue(whole, fraction) * Pow10(n))
  {
    ValueConcat(whole, fraction);
    FactorIsPowerOfTen(unit);
    PowAdd(|fraction|, n);
    Regroup(Value(whole), Pow10(|fraction|), Value(fraction), Pow10(n));
  }

  lemma {:induction false} Regroup(a: nat, p: nat, b: nat, q: nat)
    ensures a * (p * q) + b * q == (a * p + b) * q
  {
    assert a * (p * q) == (a * p) * q;
  }

  lemma {:induction false} ShiftIsNoChange(v: nat, n: nat)
    ensures v * Pow10(n) == v <==> v == 0 || n == 0
  {
    if n > 0 {
      PowPositive(n - 1);
      assert Pow10(n) == 10 * Pow10(n - 1) >= 10;
      if v > 0 { assert v * Pow10(n) >= v * 10; }
    } else {
      assert Pow10(0) == 1;
    }
  }

  /** The parts of a decimal, with blanks before the sign, before the dot, after the dot and at the end. A decimal
      without digits denotes zero. */
  datatype Decimal = Decimal(lead: string, sign: string, digits: string, mid: string, gap: string, more: string,
                             trail: string) {
    function Whole(): string { lead + sign + digits + mid }

    function Fraction(): string { gap + more + trail }

    predicate Valid() {
      && Blanks(lead) && IsSign(sign) && AllDigits(digits) && Blanks(mid)
      && Blanks(gap) && AllDigits(more) && Blanks(trail)
    }
  }

  /** The text, once its spaces are removed, is this decimal. */
  predicate Denotes(text: string, d: Decimal) { d.Valid() && PartsOf(text) == Some((d.Whole(), d.Fraction())) }

  function ZerosFor(unit: int, d: Decimal): string
    requires |d.Fraction()| <= DecimalsOf(unit)
  {
    Repeat('0', DecimalsOf(unit) - |d.Fraction()|)
  }

  /** The characters from the sign on. */
  function AfterLead(d: Decimal, zeros: string): string {
    d.sign + (d.digits + (d.mid + (d.gap + (d.more + (d.trail + zeros)))))
  }

  lemma {:induction false} FilledParts(unit: int, d: Decimal)
    requires |d.Fraction()| <= DecimalsOf(unit)
    ensures Filled(unit, d.Whole(), d.Fraction()) == d.lead + AfterLead(d, ZerosFor(unit, d))
  {
    var zeros := ZerosFor(unit, d);
    Padded(d.Fraction(), DecimalsOf(unit));
    JoinAssociates(d.gap + d.more, d.trail, zeros);
    JoinAssociates(d.gap, d.more, d.trail + zeros);
    var rest := d.gap + (d.more + (d.trail + zeros));
    JoinAssociates(d.lead + d.sign + d.digits, d.mid, rest);
    JoinAssociates(d.lead + d.sign, d.digits, d.mid + rest);
    JoinAssociates(d.lead, d.sign, d.digits + (d.mid + rest));
  }

  lemma {:induction false} ReadingParts(r: Reading)
    ensures r.Text() == r.lead + (r.sign + (r.digits + r.trail))
  {
    JoinAssociates(r.lead, r.sign + r.digits, r.trail);
    JoinAssociates(r.sign, r.digits, r.trail);
  }

  // What is read has the sign and the digits of the decimal, because nothing else in either is a sign or a digit.

  predicate IsSignChar(c: char) { c == '-' || c == '+' }

  /** The characters that satisfy `f`, in order. */
  function Keep(s: string, f: char -> bool): string {
    if s == "" then "" else (if f(s[0]) then [s[0]] else "") + Keep(s[1..], f)
  }

  lemma {:induction false} KeepConcat(a: string, b: string, f: char -> bool)
    ensures Keep(a + b, f) == Keep(a, f) + Keep(b, f)
  {
    if a == "" {
      assert a + b == b;
      JoinEmpty(Keep(b, f));
    } else {
      var head := if f(a[0]) then [a[0]] else "";
      assert (a + b)[0] == a[0] && (a + b)[1..] == a[1..] + b;
      KeepConcat(a[1..], b, f);
      JoinAssociates(head, Keep(a[1..], f), Keep(b, f));
    }
  }

  lemma {:induction false} KeepAll(s: string, f: char -> bool)
    requires forall i :: 0 <= i < |s| ==> f(s[i])
    ensures Keep(s, f) == s
  {
    if s != "" { KeepAll(s[1..], f); }
  }

  lemma {:induction false} KeepNone(s: string, f: char -> bool)
    requires forall i :: 0 <= i < |s| ==> !f(s[i])
    ensures Keep(s, f) == ""
  {
    if s != "" { KeepNone(s[1..], f); }
  }

  lemma {:induction false} KeepBlanks(s: string)
    requires Blanks(s)
    ensures Keep(s, IsDigit) == "" && Keep(s, IsSignChar) == ""
  {
    KeepNone(s, IsDigit);
    KeepNone(s, IsSignChar);
  }

  lemma {:induction false} KeepDigits(s: string)
    requires AllDigits(s)
    ensures Keep(s, IsDigit) == s && Keep(s, IsSignChar) == ""
  {
    KeepAll(s, IsDigit);
    KeepNone(s, IsSignChar);
  }

  lemma {:induction false} KeepSign(s: string)
    requires IsSign(s)
    ensures Keep(s, IsDigit) == "" && Keep(s, IsSignChar) == s
  {
    KeepNone(s, IsDigit);
    KeepAll(s, IsSignChar);
  }

  // The digits and the signs of a text that starts with blanks, digits or a sign.

  lemma {:induction false} KeepAfterBlanks(a: string, b: string)
    requires Blanks(a)
    ensures Keep(a + b, IsDigit) == Keep(b, IsDigit) && Keep(a + b, IsSignChar) == Keep(b, IsSignChar)
  {
    KeepConcat(a, b, IsDigit);
    KeepConcat(a, b, IsSignChar);
    KeepBlanks(a);
    JoinEmpty(Keep(b, IsDigit));
    JoinEmpty(Keep(b, IsSignChar));
  }

  lemma {:induction false} KeepAfterDigits(a: string, b: string)
    requires AllDigits(a)
    ensures Keep(a + b, IsDigit) == a + Keep(b, IsDigit) && Keep(a + b, IsSignChar) == Keep(b, IsSignChar)
  {
    KeepConcat(a, b, IsDigit);
    KeepConcat(a, b, IsSignChar);
    KeepDigits(a);
    JoinEmpty(Keep(b, IsSignChar));
  }

  lemma {:induction false} KeepAfterSign(a: string, b: string)
    requires IsSign(a)
    ensures Keep(a + b, IsDigit) == Keep(b, IsDigit) && Keep(a + b, IsSignChar) == a + Keep(b, IsSignChar)
  {
    KeepConcat(a, b, IsDigit);
    KeepConcat(a, b, IsSignChar);
    KeepSign(a);
    JoinEmpty(Keep(b, IsDigit));
  }

  lemma {:induction false} ReadingKeeps(r: Reading)
    requires r.Valid()
    ensures Keep(r.Text(), IsDigit) == r.digits && Keep(r.Text(), IsSignChar) == r.sign
  {
    ReadingParts(r);
    KeepAfterBlanks(r.lead, r.sign + (r.digits + r.trail));
    KeepAfterSign(r.sign, r.digits + r.trail);
    KeepAfterDigits(r.digits, r.trail);
    KeepBlanks(r.trail);
    JoinEmpty(r.digits);
    JoinEmpty(r.sign);
  }

  lemma {:induction false} TailKeeps(d: Decimal, zeros: string)
    requires d.Valid() && AllDigits(zeros)
    ensures var tail := d.mid + (d.gap + (d.more + (d.trail + zeros)));
            Keep(tail, IsDigit) == d.more + zeros && Keep(tail, IsSignChar) == ""
  {
    KeepAfterBlanks(d.mid, d.gap + (d.more + (d.trail + zeros)));
    KeepAfterBlanks(d.gap, d.more + (d.trail + zeros));
    KeepAfterDigits(d.more, d.trail + zeros);
    KeepAfterBlanks(d.trail, zeros);
    KeepDigits(zeros);
  }

  lemma {:induction false} DecimalKeeps(d: Decimal, zeros: string)
    requires d.Valid() && AllDigits(zeros)
    ensures Keep(d.lead + AfterLead(d, zeros), IsDigit) == d.digits + (d.more + zeros)
    ensures Keep(d.lead + AfterLead(d, zeros), IsSignChar) == d.sign
  {
    var tail := d.mid + (d.gap + (d.more + (d.trail + zeros)));
    TailKeeps(d, zeros);
    KeepAfterBlanks(d.lead, d.sign + (d.digits + tail));
    KeepAfterSign(d.sign, d.digits + tail);
    KeepAfterDigits(d.digits, tail);
    JoinEmpty(d.sign);
  }

  /** The decimal with its fraction cut short by as many places as it has blanks. */
  function AmountOf(unit: int, d: Decimal): int
    requires d.Valid() && |d.Fraction()| <= DecimalsOf(unit)
  {
    Negated(d.sign, DigitsValue(d.digits, d.more) * Pow10(DecimalsOf(unit) - |d.Fraction()|))
  }

  lemma {:induction false} FilledValue(a: string, b: string, n: nat)
    requires AllDigits(a) && AllDigits(b)
    ensures var s := a + (b + Repeat('0', n)); AllDigits(s) && Value(s) == DigitsValue(a, b) * Pow10(n)
  {
    var zeros := Repeat('0', n);
    ValueConcat(a, b);
    ValueOfZeros(n);
    ValueConcat(a + b, zeros);
    JoinAssociates(a, b, zeros);
  }

  /** Whatever is read is that amount. */
  lemma {:induction false} OnlyOneAmount(unit: int, d: Decimal, r: Reading)
    requires d.Valid() && |d.Fraction()| <= DecimalsOf(unit) && r.Valid()
    requires Filled(unit, d.Whole(), d.Fraction()) == r.Text()
    ensures r.sign == d.sign && r.digits == d.digits + (d.more + ZerosFor(unit, d))
    ensures Negated(r.sign, Value(r.digits)) == AmountOf(unit, d)
  {
    FilledParts(unit, d);
    ValueOfZeros(DecimalsOf(unit) - |d.Fraction()|);
    DecimalKeeps(d, ZerosFor(unit, d));
    ReadingKeeps(r);
    FilledValue(d.digits, d.more, DecimalsOf(unit) - |d.Fraction()|);
  }

  // ---------------------------------------------------------------- which decimals are accepted

  /** The sign and the digits, the zeros that are filled in among them, stand together. */
  predicate Together(d: Decimal, zeros: string) {
    && d.digits + (d.more + zeros) != ""
    && (d.sign + d.digits == "" || d.mid + d.gap == "" || (d.digits != "" && d.more + zeros == ""))
    && (d.trail == "" || zeros == "" || d.sign + (d.digits + d.more) == "")
  }

  lemma {:induction false} NumberAtStart(d: Decimal, zeros: string)
    requires d.Valid() && AllDigits(zeros) && Together(d, zeros) && d.mid + d.gap == ""
    requires d.trail == "" || zeros == ""
    ensures exists r: Reading :: r.Valid() && d.lead + AfterLead(d, zeros) == r.Text()
  {
    ValueConcat(d.more, zeros);
    ValueConcat(d.digits, d.more + zeros);
    var r := Reading(d.lead, d.sign, d.digits + (d.more + zeros), d.trail);
    ReadingParts(r);
    JoinAssociates(d.digits, d.more + zeros, d.trail);
    JoinAssociates(d.more, zeros, d.trail);
    assert zeros + d.trail == d.trail + zeros by { Commute(zeros, d.trail); }
    assert d.mid + (d.gap + (d.more + (d.trail + zeros))) == d.more + (d.trail + zeros) by {
      JoinEmpty(d.more + (d.trail + zeros));
    }
    assert r.Valid();
  }

  lemma {:induction false} Commute(a: string, b: string)
    requires a == "" || b == ""
    ensures a + b == b + a
  {
    JoinEmpty(a);
    JoinEmpty(b);
  }

  lemma {:induction false} NumberAfterDot(d: Decimal, zeros: string)
    requires d.Valid() && AllDigits(zeros) && d.sign + d.digits == "" && d.more + zeros != ""
    requires d.trail == "" || zeros == ""
    ensures exists r: Reading :: r.Valid() && d.lead + AfterLead(d, zeros) == r.Text()
  {
    var lead := d.lead + (d.mid + d.gap);
    BlanksJoin(d.mid, d.gap);
    BlanksJoin(d.lead, d.mid + d.gap);
    var e := Decimal(lead, "", "", "", "", d.more, d.trail);
    NumberAtStart(e, zeros);
    var tail := d.more + (d.trail + zeros);
    assert AfterLead(e, zeros) == tail by { JoinEmpty(tail); }
    assert AfterLead(d, zeros) == d.mid + (d.gap + tail) by { JoinEmpty(d.mid + (d.gap + tail)); }
    JoinAssociates(d.mid, d.gap, tail);
    JoinAssociates(d.lead, d.mid + d.gap, tail);
  }

  lemma {:induction false} ZerosOnly(d: Decimal, zeros: string)
    requires d.Valid() && AllDigits(zeros) && zeros != "" && d.sign + (d.digits + d.more) == ""
    ensures exists r: Reading :: r.Valid() && d.lead + AfterLead(d, zeros) == r.Text()
  {
    BlanksJoin(d.gap, d.trail);
    var e := d.(gap := d.gap + d.trail, trail := "");
    NumberAfterDot(e, zeros);
    JoinEmpty(zeros);
    JoinEmpty(d.trail + zeros);
    JoinAssociates(d.gap, d.trail, zeros);
    assert AfterLead(e, zeros) == AfterLead(d, zeros);
  }

  lemma {:induction false} NumberBeforeDot(d: Decimal, zeros: string)
    requires d.Valid() && d.digits != "" && d.more + zeros == ""
    ensures exists r: Reading :: r.Valid() && d.lead + AfterLead(d, zeros) == r.Text()
  {
    BlanksJoin(d.gap, d.trail);
    BlanksJoin(d.mid, d.gap + d.trail);
    var r := Reading(d.lead, d.sign, d.digits, d.mid + (d.gap + d.trail));
    ReadingParts(r);
    JoinEmpty(d.trail);
    assert d.more + (d.trail + zeros) == d.trail;
    assert r.Valid();
  }

  lemma {:induction false} TogetherReads(d: Decimal, zeros: string)
    requires d.Valid() && AllDigits(zeros) && Together(d, zeros)
    ensures exists r: Reading :: r.Valid() && d.lead + AfterLead(d, zeros) == r.Text()
  {
    if d.sign + (d.digits + d.more) == "" && zeros != "" {
      ZerosOnly(d, zeros);
    } else if d.sign + d.digits == "" {
      NumberAfterDot(d, zeros);
    } else if d.mid + d.gap == "" {
      NumberAtStart(d, zeros);
    } else {
      NumberBeforeDot(d, zeros);
    }
  }

  /** Blanks before something else are determined by the text. */
  lemma {:induction false} SameLead(a: string, x: string, b: string, y: string)
    requires Blanks(a) && Blanks(b) && a + x == b + y
    requires x != "" && y != "" && !IsSpace(x[0]) && !IsSpace(y[0])
    ensures a == b && x == y
  {
    TrimLeftSkips(a, x);
    TrimLeftSkips(b, y);
    assert |a| == |b|;
    assert a == (a + x)[..|a|] == b;
  }

  /** A text that starts with a digit or a sign does not start with a blank. */
  lemma {:induction false} NumberStarts(sign: string, digits: string, rest: string)
    requires IsSign(sign) && AllDigits(digits) && sign + digits != ""
    ensures sign + (digits + rest) != "" && !IsSpace((sign + (digits + rest))[0])
  {
    if sign == "" {
      assert (sign + (digits + rest))[0] == digits[0];
      DigitsAreNotSpaces(digits[0]);
    } else {
      assert (sign + (digits + rest))[0] == sign[0];
    }
  }

  /** Blanks in front of, or among, digits do not go away. */
  lemma {:induction false} BlanksStay(blanks: string, digits: string, x: string, y: string)
    requires Blanks(blanks) && blanks != "" && AllDigits(digits) && digits + x == blanks + y
    ensures digits == ""
  {
    if digits != "" {
      assert digits[0] == (digits + x)[0] == blanks[0];
      BlankIsNoDigit(blanks[0]);
    }
  }

  /** Given that what follows the sign is read, the digits stand together. */
  lemma {:induction false} ReadAfterSign(d: Decimal, zeros: string, trail: string)
    requires d.Valid() && AllDigits(zeros) && AllDigits(d.more + zeros) && d.digits + (d.more + zeros) != ""
    requires (d.more + zeros) + trail == d.mid + (d.gap + (d.more + (d.trail + zeros)))
    ensures Together(d, zeros)
  {
    if d.mid + d.gap != "" {
      JoinAssociates(d.mid, d.gap, d.more + (d.trail + zeros));
      BlanksJoin(d.mid, d.gap);
      BlanksStay(d.mid + d.gap, d.more + zeros, trail, d.more + (d.trail + zeros));
    } else {
      assert d.mid + (d.gap + (d.more + (d.trail + zeros))) == d.more + (d.trail + zeros) by {
        JoinEmpty(d.more + (d.trail + zeros));
      }
      ReadAfterMore(d.more, zeros, trail, d.trail);
    }
  }

  lemma {:induction false} ReadAfterMore(more: string, zeros: string, trail: string, blanks: string)
    requires AllDigits(zeros) && Blanks(blanks) && (more + zeros) + trail == more + (blanks + zeros)
    ensures blanks == "" || zeros == ""
  {
    JoinAssociates(more, zeros, trail);
    assert zeros + trail == (more + (zeros + trail))[|more|..] == blanks + zeros;
    if blanks != "" { BlanksStay(blanks, zeros, trail, zeros); }
  }

  lemma {:induction false} ReadsTogether(d: Decimal, zeros: string, r: Reading)
    requires d.Valid() && AllDigits(zeros) && AllDigits(d.more + zeros) && r.Valid()
    requires d.lead + AfterLead(d, zeros) == r.Text() && r.sign == d.sign && r.digits == d.digits + (d.more + zeros)
    ensures Together(d, zeros)
  {
    ReadingParts(r);
    NumberStarts(r.sign, r.digits, r.trail);
    if d.sign + d.digits != "" {
      SignedReadsTogether(d, zeros, r);
    } else if d.more != "" {
      FractionReadsTogether(d, zeros, r);
    }
  }

  lemma {:induction false} SignedReadsTogether(d: Decimal, zeros: string, r: Reading)
    requires d.Valid() && AllDigits(zeros) && AllDigits(d.more + zeros) && r.Valid() && d.sign + d.digits != ""
    requires d.lead + AfterLead(d, zeros) == r.lead + (d.sign + (r.digits + r.trail))
    requires r.digits == d.digits + (d.more + zeros)
    ensures Together(d, zeros)
  {
    var rest := d.mid + (d.gap + (d.more + (d.trail + zeros)));
    NumberStarts(d.sign, d.digits, rest);
    NumberStarts(d.sign, r.digits, r.trail);
    SameLead(d.lead, AfterLead(d, zeros), r.lead, d.sign + (r.digits + r.trail));
    assert d.digits + rest == AfterLead(d, zeros)[|d.sign|..] == r.digits + r.trail;
    JoinAssociates(d.digits, d.more + zeros, r.trail);
    assert rest == (d.digits + rest)[|d.digits|..] == (d.more + zeros) + r.trail;
    ReadAfterSign(d, zeros, r.trail);
  }

  lemma {:induction false} FractionReadsTogether(d: Decimal, zeros: string, r: Reading)
    requires d.Valid() && AllDigits(zeros) && AllDigits(d.more + zeros) && r.Valid()
    requires d.sign + d.digits == "" && d.more != ""
    requires d.lead + AfterLead(d, zeros) == r.lead + (d.sign + (r.digits + r.trail))
    requires r.digits == d.digits + (d.more + zeros)
    ensures Together(d, zeros)
  {
    var lead, tail := d.lead + (d.mid + d.gap), d.more + (d.trail + zeros);
    BlanksJoin(d.mid, d.gap);
    BlanksJoin(d.lead, d.mid + d.gap);
    assert AfterLead(d, zeros) == d.mid + (d.gap + tail) by { JoinEmpty(d.mid + (d.gap + tail)); }
    JoinAssociates(d.mid, d.gap, tail);
    JoinAssociates(d.lead, d.mid + d.gap, tail);
    JoinEmpty(r.digits + r.trail);
    JoinEmpty(d.more + zeros);
    JoinEmpty(tail);
    NumberStarts("", d.more, d.trail + zeros);
    NumberStarts("", r.digits, r.trail);
    SameLead(lead, tail, r.lead, r.digits + r.trail);
    ReadAfterMore(d.more, zeros, r.trail, d.trail);
  }

  /** Short enough for the unit, and the sign and the digits stand together once the fraction is filled up. */
  predicate Readable(unit: int, d: Decimal) {
    && |d.Fraction()| <= DecimalsOf(unit) && |d.Whole()| + DecimalsOf(unit) <= MAX_LENGTH
    && Together(d, ZerosFor(unit, d))
  }

  lemma {:induction false} ReadsAsItsAmount(unit: int, d: Decimal, v: int)
    requires d.Valid() && |d.Fraction()| <= DecimalsOf(unit)
    ensures ReadsAs(Filled(unit, d.Whole(), d.Fraction()), v) <==>
            Together(d, ZerosFor(unit, d)) && v == AmountOf(unit, d)
  {
    var zeros := ZerosFor(unit, d);
    FilledParts(unit, d);
    ValueOfZeros(|zeros|);
    ValueConcat(d.more, zeros);
    if Together(d, zeros) {
      TogetherReads(d, zeros);
      var r: Reading :| r.Valid() && d.lead + AfterLead(d, zeros) == r.Text();
      OnlyOneAmount(unit, d, r);
      Witness(r);
    }
    if ReadsAs(Filled(unit, d.Whole(), d.Fraction()), v) {
      var r: Reading :| r.Valid() && Filled(unit, d.Whole(), d.Fraction()) == r.Text()
                        && v == Negated(r.sign, Value(r.digits));
      OnlyOneAmount(unit, d, r);
      ReadsTogether(d, zeros, r);
    }
  }

  /** For every text that denotes a decimal, with a dot or not, spaces anywhere and other blanks between its parts:
      exactly when it is accepted, and the amount that is read. */
  lemma {:induction false} DecimalTextIsRead(unit: int, text: string, d: Decimal)
    requires Valid(unit) && text != "" && Denotes(text, d)
    ensures Parse(unit, text) == if Readable(unit, d) then Some(AmountOf(unit, d)) else None
  {
    if Parse(unit, text).Some? {
      var v := Parse(unit, text).value;
      AcceptedIff(unit, text, v);
      ReadsAsItsAmount(unit, d, v);
    } else if Readable(unit, d) {
      AcceptedIff(unit, text, AmountOf(unit, d));
      ReadsAsItsAmount(unit, d, AmountOf(unit, d));
    }
  }

  /** The fraction is digits only exactly when it has no blanks. */
  lemma {:induction false} DigitsOnlyIff(d: Decimal)
    requires d.Valid()
    ensures AllDigits(d.Fraction()) <==> d.gap + d.trail == ""
  {
    var s := d.Fraction();
    if d.gap != "" {
      assert s[0] == d.gap[0];
      BlankIsNoDigit(s[0]);
    } else if d.trail != "" {
      assert s[|s| - 1] == d.trail[|d.trail| - 1];
      BlankIsNoDigit(s[|s| - 1]);
    } else {
      JoinEmpty(d.more);
    }
  }

  /** Every accepted text that denotes a decimal is read as that decimal, times the factor of the unit, exactly when its
      fraction is digits only or it denotes zero. */
  lemma {:induction false} ExactIffDigitsOrZero(unit: int, text: string, d: Decimal)
    requires Denotes(text, d) && Parse(unit, text).Some?
    ensures Valid(unit) && |d.more| <= DecimalsOf(unit)
    ensures Parse(unit, text) == Some(Exact(unit, d.sign, d.digits, d.more)) <==>
            AllDigits(d.Fraction()) || DigitsValue(d.digits, d.more) == 0
  {
    DecimalTextIsRead(unit, text, d);
    ExactAmountIff(unit, d);
  }

  lemma {:induction false} ExactAmountIff(unit: int, d: Decimal)
    requires Valid(unit) && d.Valid() && |d.Fraction()| <= DecimalsOf(unit)
    ensures |d.more| <= DecimalsOf(unit)
    ensures AmountOf(unit, d) == Exact(unit, d.sign, d.digits, d.more) <==>
            AllDigits(d.Fraction()) || DigitsValue(d.digits, d.more) == 0
  {
    var n, blanks := DecimalsOf(unit) - |d.Fraction()|, |d.gap| + |d.trail|;
    DigitsOnlyIff(d);
    TrailShifts(unit, d.sign, d.digits, d.more, n + blanks);
    SameAmountIff(d.sign, DigitsValue(d.digits, d.more), n, blanks);
  }

  lemma {:induction false} SameAmountIff(sign: string, value: nat, n: nat, more: nat)
    ensures Negated(sign, value * Pow10(n)) == Negated(sign, value * Pow10(n + more)) <==> more == 0 || value == 0
  {
    PowPositive(n);
    PowAdd(n, more);
    JoinProduct(value, Pow10(n), Pow10(more));
    ShiftIsNoChange(value * Pow10(n), more);
    NoZeroProduct(value, Pow10(n));
  }

  lemma {:induction false} JoinProduct(a: nat, b: nat, c: nat)
    ensures a * (b * c) == (a * b) * c
  {
  }

  lemma {:induction false} NoZeroProduct(a: nat, b: nat)
    requires b > 0
    ensures a * b == 0 <==> a == 0
  {
  }

  lemma {:induction false} OneDigit(c: char)
    requires IsDigit(c)
    ensures AllDigits([c]) && Value([c]) == DigitValue(c)
  {
    assert [c][..0] == "";
  }

  lemma {:induction false} AmountOfTab(d: Decimal)
    requires d == Decimal("", "", "1", "", "", "5", "\t")
    ensures d.Valid() && Readable(UBTC, d) && AmountOf(UBTC, d) == 15 && Exact(UBTC, "", "1", "5") == 150
  {
    OneDigit('1');
    OneDigit('5');
    ValueConcat("1", "5");
    assert Pow10(0) == 1 && Pow10(1) == 10;
    assert d.Fraction() == "5\t" && d.Whole() == "1";
  }

  lemma {:induction false} TextOfTab(d: Decimal)
    requires d == Decimal("", "", "1", "", "", "5", "\t")
    ensures PartsOf("1.5\t") == Some((d.Whole(), d.Fraction()))
  {
    assert d.Whole() == "1" && d.Fraction() == "5\t";
    OneAndAHalf();
    SplitOneDot("1", "5\t");
  }

  lemma {:induction false} OneAndAHalf()
    ensures RemoveSpaces("1.5\t") == "1" + "." + "5\t"
  {
    RemoveNoSpaces("1.5\t");
    assert "1.5\t" == "1" + "." + "5\t";
  }

  /** A tab after the decimals shifts them: 1.5 units of 100 satoshis are read as 15 satoshis. */
  lemma {:induction false} TrailingTabMisreads()
    ensures Parse(UBTC, "1.5\t") == Some(15) && Exact(UBTC, "", "1", "5") == 150
  {
    var d := Decimal("", "", "1", "", "", "5", "\t");
    AmountOfTab(d);
    TextOfTab(d);
    DecimalTextIsRead(UBTC, "1.5\t", d);
  }

  // ---------------------------------------------------------------- all accepted forms

  /** A signed number after blanks, then digits: the exact decimal. */
  ghost predicate PlainForm(unit: int, whole: string, fraction: string, v: int)
    requires Valid(unit) && |fraction| <= DecimalsOf(unit)
  {
    AllDigits(fraction) && exists lead: string, sign: string, digits: string ::
      && Blanks(lead) && IsSign(sign) && AllDigits(digits) && whole == lead + sign + digits
      && v == Exact(unit, sign, digits, fraction)
  }

  /** As before, but blanks follow the digits of the fraction and fill up the decimals: the digits alone. */
  ghost predicate TrailingForm(unit: int, whole: string, fraction: string, v: int) {
    |fraction| == DecimalsOf(unit) && exists lead: string, sign: string, digits: string, more: string, trail: string ::
      && Blanks(lead) && IsSign(sign) && AllDigits(digits) && AllDigits(more) && digits + more != ""
      && trail != "" && Blanks(trail) && whole == lead + sign + digits && fraction == more + trail
      && v == Negated(sign, DigitsValue(digits, more))
  }

  predicate FractionParts(unit: int, fraction: string, lead: string, sign: string, digits: string, trail: string,
                          v: int)
  {
    && Blanks(lead) && IsSign(sign) && lead + sign != "" && AllDigits(digits) && Blanks(trail)
    && fraction == lead + sign + digits + trail && |fraction| <= DecimalsOf(unit)
    && (if |fraction| < DecimalsOf(unit) then trail == "" else digits != "")
    && v == Negated(sign, Value(digits) * Pow10(DecimalsOf(unit) - |fraction|))
  }

  /** The whole part is blank and the number starts within the fraction, after blanks or with a sign. */
  ghost predicate FractionForm(unit: int, whole: string, fraction: string, v: int) {
    Blanks(whole) && exists lead: string, sign: string, digits: string, trail: string ::
      FractionParts(unit, fraction, lead, sign, digits, trail, v)
  }

  /** The number ends within the whole part, before blanks, and the fraction is blank: the digits alone. */
  ghost predicate BlankFractionForm(unit: int, whole: string, fraction: string, v: int) {
    |fraction| == DecimalsOf(unit) && Blanks(fraction) && exists r: Reading ::
      r.Valid() && r.trail != "" && whole == r.Text() && v == Negated(r.sign, Value(r.digits))
  }

  ghost predicate SomeForm(unit: int, whole: string, fraction: string, v: int)
    requires Valid(unit) && |fraction| <= DecimalsOf(unit)
  {
    || PlainForm(unit, whole, fraction, v) || TrailingForm(unit, whole, fraction, v)
    || FractionForm(unit, whole, fraction, v) || BlankFractionForm(unit, whole, fraction, v)
  }

  // Every form is a reading of the filled characters.

  lemma {:induction false} PlainFormReads(unit: int, whole: string, fraction: string, v: int)
    requires Valid(unit) && |fraction| <= DecimalsOf(unit) && PlainForm(unit, whole, fraction, v)
    ensures ReadsAs(Filled(unit, whole, fraction), v)
  {
    var lead: string, sign: string, digits: string :|
      && Blanks(lead) && IsSign(sign) && AllDigits(digits) && whole == lead + sign + digits
      && v == Exact(unit, sign, digits, fraction);
    PlainReads(unit, lead, sign, digits, fraction);
  }

  lemma {:induction false} TrailingFormReads(unit: int, whole: string, fraction: string, v: int)
    requires TrailingForm(unit, whole, fraction, v)
    ensures ReadsAs(Filled(unit, whole, fraction), v)
  {
    var lead: string, sign: string, digits: string, more: string, trail: string :|
      && Blanks(lead) && IsSign(sign) && AllDigits(digits) && AllDigits(more) && digits + more != ""
      && trail != "" && Blanks(trail) && whole == lead + sign + digits && fraction == more + trail
      && v == Negated(sign, DigitsValue(digits, more));
    TrailingReads(unit, lead, sign, digits, more, trail);
  }

  lemma {:induction false} FractionFormReads(unit: int, whole: string, fraction: string, v: int)
    requires FractionForm(unit, whole, fraction, v)
    ensures ReadsAs(Filled(unit, whole, fraction), v)
  {
    var lead: string, sign: string, digits: string, trail: string :|
      FractionParts(unit, fraction, lead, sign, digits, trail, v);
    FractionReads(unit, whole, lead, sign, digits, trail);
  }

  lemma {:induction false} BlankFractionFormReads(unit: int, whole: string, fraction: string, v: int)
    requires BlankFractionForm(unit, whole, fraction, v)
    ensures ReadsAs(Filled(unit, whole, fraction), v)
  {
    var q: Reading :| q.Valid() && q.trail != "" && whole == q.Text() && v == Negated(q.sign, Value(q.digits));
    assert PadRight(fraction, DecimalsOf(unit), '0') == fraction;
    var r := q.(trail := q.trail + fraction);
    assert Filled(unit, whole, fraction) == r.Text();
    assert r.Valid();
  }

  // And every reading has one of the forms.

  /** Where a reading starts and ends within its text. */
  lemma {:induction false} SlicesOf(r: Reading)
    ensures var s, a, b := r.Text(), |r.lead|, |r.lead| + |r.sign|;
            var c := b + |r.digits|;
            c + |r.trail| == |s| && s[..a] == r.lead && s[a..b] == r.sign && s[b..c] == r.digits && s[c..] == r.trail
  {
  }

  /** The characters of a reading, by place: only those between the sign and the trailing blanks are digits. */
  lemma {:induction false} DigitPlaces(r: Reading, i: nat)
    requires r.Valid() && i < |r.Text()|
    ensures IsDigit(r.Text()[i]) <==> |r.lead| + |r.sign| <= i < |r.lead| + |r.sign| + |r.digits|
  {
    var s, a, b := r.Text(), |r.lead|, |r.lead| + |r.sign|;
    var c := b + |r.digits|;
    if i < a {
      assert s[i] == r.lead[i];
      BlankIsNoDigit(s[i]);
    } else if i < b {
      assert s[i] == r.sign[i - a];
      if IsDigit(s[i]) { DigitIsNoSign(s[i]); }
    } else if i < c {
      assert s[i] == r.digits[i - b];
    } else {
      assert s[i] == r.trail[i - c];
      BlankIsNoDigit(s[i]);
    }
  }

  /** The last of the filled characters is a digit unless the fraction takes all decimals. */
  lemma {:induction false} NoTrailIfFilled(unit: int, whole: string, fraction: string, r: Reading)
    requires Valid(unit) && |fraction| < DecimalsOf(unit) && r.Valid() && Filled(unit, whole, fraction) == r.Text()
    ensures r.trail == ""
  {
    var last := |r.Text()| - 1;
    assert r.Text()[last] == '0' by { assert PadRight(fraction, DecimalsOf(unit), '0')[DecimalsOf(unit) - 1] == '0'; }
    DigitPlaces(r, last);
  }

  /** The fraction within the text. */
  lemma {:induction false} FractionPlace(unit: int, whole: string, fraction: string, r: Reading)
    requires Valid(unit) && |fraction| <= DecimalsOf(unit) && Filled(unit, whole, fraction) == r.Text()
    ensures var s, n := r.Text(), |whole|;
            |s| == n + DecimalsOf(unit) && s[..n] == whole && s[n..n + |fraction|] == fraction
            && s[n + |fraction|..] == Repeat('0', DecimalsOf(unit) - |fraction|)
  {
  }

  /** Cutting a reading without trailing blanks after its sign. */
  lemma {:induction false} CutInDigits(r: Reading, n: nat)
    requires |r.lead| + |r.sign| <= n <= |r.lead| + |r.sign| + |r.digits|
    ensures var k := n - |r.lead| - |r.sign|;
            r.Text()[..n] == r.lead + r.sign + r.digits[..k] && r.Text()[n..] == r.digits[k..] + r.trail
            && r.digits == r.digits[..k] + r.digits[k..]
  {
  }

  lemma {:induction false} PlainSplit(unit: int, whole: string, fraction: string, r: Reading) returns (digits: string)
    requires Valid(unit) && |fraction| <= DecimalsOf(unit) && r.Valid() && Filled(unit, whole, fraction) == r.Text()
    requires AllDigits(fraction)
    ensures whole == r.lead + r.sign + digits && AllDigits(digits)
    ensures r.digits == digits + PadRight(fraction, DecimalsOf(unit), '0')
  {
    var s, n := r.Text(), |whole|;
    var padded := PadRight(fraction, DecimalsOf(unit), '0');
    PadRightValue(fraction, DecimalsOf(unit));
    assert s[n] == padded[0] && s[|s| - 1] == padded[|padded| - 1];
    DigitPlaces(r, n);
    DigitPlaces(r, |s| - 1);
    CutInDigits(r, n);
    assert s[..n] == whole && s[n..] == padded;
    digits := r.digits[..n - |r.lead| - |r.sign|];
    assert r.digits[|digits|..] + "" == r.digits[|digits|..];
  }

  lemma {:induction false} PlainReading(unit: int, whole: string, fraction: string, r: Reading)
    requires Valid(unit) && |fraction| <= DecimalsOf(unit) && r.Valid() && Filled(unit, whole, fraction) == r.Text()
    requires AllDigits(fraction)
    ensures PlainForm(unit, whole, fraction, Negated(r.sign, Value(r.digits)))
  {
    var digits := PlainSplit(unit, whole, fraction, r);
    WholeAndDecimals(unit, digits, fraction);
  }

  lemma {:induction false} FractionReading(unit: int, whole: string, fraction: string, r: Reading)
    requires Valid(unit) && |fraction| <= DecimalsOf(unit) && r.Valid() && Filled(unit, whole, fraction) == r.Text()
    requires |r.lead| + |r.sign| > |whole|
    ensures FractionForm(unit, whole, fraction, Negated(r.sign, Value(r.digits)))
  {
    var m := |whole| + |fraction|;
    FractionPlace(unit, whole, fraction, r);
    if |fraction| < DecimalsOf(unit) {
      NoTrailIfFilled(unit, whole, fraction, r);
      assert r.Text()[m] == '0' by { assert r.Text()[m..][0] == '0'; }
      DigitPlaces(r, m);
      FilledDigits(r, m, DecimalsOf(unit) - |fraction|);
      FractionSplit(r, |whole|, m);
      var digits := r.digits[..m - |r.lead| - |r.sign|];
      IsFractionForm(unit, whole, r.lead[|whole|..], r.sign, digits, "", Value(r.digits));
    } else {
      FractionEnds(r);
      FractionSplit(r, |whole|, m);
      assert Pow10(0) == 1;
      IsFractionForm(unit, whole, r.lead[|whole|..], r.sign, r.digits, r.trail, Value(r.digits));
    }
  }

  lemma {:induction false} FractionEnds(r: Reading)
    ensures |r.lead| + |r.sign| <= |r.Text()|
    ensures r.trail == "" ==> r.digits[..|r.Text()| - |r.lead| - |r.sign|] == r.digits
  {
  }

  lemma {:induction false} IsFractionForm(unit: int, whole: string, lead: string, sign: string, digits: string,
                                          trail: string, v: nat)
    requires Blanks(whole) && Blanks(lead) && IsSign(sign) && lead + sign != "" && AllDigits(digits) && Blanks(trail)
    requires var n := |lead + sign + digits + trail|;
             && n <= DecimalsOf(unit) && (if n < DecimalsOf(unit) then trail == "" else digits != "")
             && v == Value(digits) * Pow10(DecimalsOf(unit) - n)
    ensures FractionForm(unit, whole, lead + sign + digits + trail, Negated(sign, v))
  {
    assert FractionParts(unit, lead + sign + digits + trail, lead, sign, digits, trail, Negated(sign, v));
  }

  lemma {:induction false} FilledDigits(r: Reading, m: nat, k: nat)
    requires r.Valid() && r.trail == "" && |r.lead| + |r.sign| <= m && m + k == |r.Text()|
             && r.Text()[m..] == Repeat('0', k)
    ensures var digits := r.digits[..m - |r.lead| - |r.sign|];
            AllDigits(digits) && Value(r.digits) == Value(digits) * Pow10(k)
  {
    var digits := r.digits[..m - |r.lead| - |r.sign|];
    SlicesOf(r);
    assert r.digits == digits + Repeat('0', k);
    ValueOfZeros(k);
    ValueConcat(digits, Repeat('0', k));
  }

  /** Cutting a reading at two places, the first within the leading blanks. */
  lemma {:induction false} FractionSplit(r: Reading, n: nat, m: nat)
    requires r.Valid() && n < |r.lead| + |r.sign| <= m <= |r.Text()| && (r.trail == "" || m == |r.Text()|)
    ensures n <= |r.lead| && r.Text()[..n] == r.lead[..n]
    ensures r.Text()[n..m] ==
            r.lead[n..] + r.sign + (if r.trail == "" then r.digits[..m - |r.lead| - |r.sign|] else r.digits) + r.trail
  {
  }

  lemma {:induction false} TrailingReading(unit: int, whole: string, fraction: string, r: Reading)
    requires Valid(unit) && |fraction| == DecimalsOf(unit) && r.Valid() && Filled(unit, whole, fraction) == r.Text()
    requires |r.lead| + |r.sign| <= |whole| <= |r.lead| + |r.sign| + |r.digits| && r.trail != ""
    ensures TrailingForm(unit, whole, fraction, Negated(r.sign, Value(r.digits)))
  {
    var k := |whole| - |r.lead| - |r.sign|;
    Padded(fraction, DecimalsOf(unit));
    CutInDigits(r, |whole|);
    assert r.Text()[..|whole|] == whole && r.Text()[|whole|..] == fraction;
    IsTrailingForm(unit, r.lead, r.sign, r.digits[..k], r.digits[k..], r.trail);
  }

  lemma {:induction false} IsTrailingForm(unit: int, lead: string, sign: string, digits: string, more: string,
                                          trail: string)
    requires Blanks(lead) && IsSign(sign) && AllDigits(digits) && AllDigits(more) && digits + more != ""
    requires trail != "" && Blanks(trail) && |more + trail| == DecimalsOf(unit)
    ensures AllDigits(digits + more)
    ensures TrailingForm(unit, lead + sign + digits, more + trail, Negated(sign, Value(digits + more)))
  {
    ValueConcat(digits, more);
    assert DigitsValue(digits, more) == Value(digits + more);
  }

  lemma {:induction false} BlankFractionReading(unit: int, whole: string, fraction: string, r: Reading)
    requires Valid(unit) && |fraction| == DecimalsOf(unit) && r.Valid() && Filled(unit, whole, fraction) == r.Text()
    requires |whole| > |r.lead| + |r.sign| + |r.digits|
    ensures BlankFractionForm(unit, whole, fraction, Negated(r.sign, Value(r.digits)))
  {
    var k := |whole| - |r.lead| - |r.sign| - |r.digits|;
    FractionPlace(unit, whole, fraction, r);
    var q := r.(trail := r.trail[..k]);
    assert whole == q.Text();
    assert fraction == r.trail[k..];
    assert q.Valid();
  }

  /** Some character of the fraction is not a digit. */
  lemma {:induction false} OtherReading(unit: int, whole: string, fraction: string, r: Reading)
    requires Valid(unit) && |fraction| <= DecimalsOf(unit) && r.Valid() && Filled(unit, whole, fraction) == r.Text()
    requires !AllDigits(fraction)
    ensures SomeForm(unit, whole, fraction, Negated(r.sign, Value(r.digits)))
  {
    var j :| 0 <= j < |fraction| && !IsDigit(fraction[j]);
    FractionPlace(unit, whole, fraction, r);
    assert r.Text()[|whole| + j] == fraction[j];
    DigitPlaces(r, |whole| + j);
    if |r.lead| + |r.sign| > |whole| {
      FractionReading(unit, whole, fraction, r);
    } else {
      assert r.trail != "";
      if |fraction| < DecimalsOf(unit) { NoTrailIfFilled(unit, whole, fraction, r); }
      if |whole| <= |r.lead| + |r.sign| + |r.digits| {
        TrailingReading(unit, whole, fraction, r);
      } else {
        BlankFractionReading(unit, whole, fraction, r);
      }
    }
  }

  lemma {:induction false} ReadsAsIffSomeForm(unit: int, whole: string, fraction: string, v: int)
    requires Valid(unit) && |fraction| <= DecimalsOf(unit)
    ensures ReadsAs(Filled(unit, whole, fraction), v) <==> SomeForm(unit, whole, fraction, v)
  {
    if PlainForm(unit, whole, fraction, v) {
      PlainFormReads(unit, whole, fraction, v);
    } else if TrailingForm(unit, whole, fraction, v) {
      TrailingFormReads(unit, whole, fraction, v);
    } else if FractionForm(unit, whole, fraction, v) {
      FractionFormReads(unit, whole, fraction, v);
    } else if BlankFractionForm(unit, whole, fraction, v) {
      BlankFractionFormReads(unit, whole, fraction, v);
    } else if ReadsAs(Filled(unit, whole, fraction), v) {
      var r: Reading :| r.Valid() && Filled(unit, whole, fraction) == r.Text() && v == Negated(r.sign, Value(r.digits));
      if AllDigits(fraction) {
        PlainReading(unit, whole, fraction, r);
      } else {
        OtherReading(unit, whole, fraction, r);
      }
    }
  }

  /** For every text and amount: the accepted texts are exactly those of the four forms, each with its value. */
  lemma {:induction false} AcceptedForms(unit: int, text: string, v: int)
    ensures Parse(unit, text) == Some(v) <==>
            && Valid(unit) && text != "" && PartsOf(text).Some?
            && var (whole, fraction) := PartsOf(text).value;
               && |fraction| <= DecimalsOf(unit) && |whole| + DecimalsOf(unit) <= MAX_LENGTH
               && SomeForm(unit, whole, fraction, v)
  {
    AcceptedIff(unit, text, v);
    if Valid(unit) && text != "" && PartsOf(text).Some? {
      var (whole, fraction) := PartsOf(text).value;
      if |fraction| <= DecimalsOf(unit) { ReadsAsIffSomeForm(unit, whole, fraction, v); }
    }
  }

  predicate NoSign(s: string) { forall i :: 0 <= i < |s| ==> !IsSignChar(s[i]) }

  lemma {:induction false} FractionHasNoSign(d: Decimal)
    requires d.Valid()
    ensures NoSign(d.Fraction())
  {
    var s := d.Fraction();
    forall i | 0 <= i < |s| ensures !IsSignChar(s[i]) {
      if i < |d.gap| {
        assert s[i] == d.gap[i];
      } else if i < |d.gap| + |d.more| {
        assert s[i] == d.more[i - |d.gap|];
      } else {
        assert s[i] == d.trail[i - |d.gap| - |d.more|];
      }
    }
  }

  ghost predicate HasDecimal(whole: string, fraction: string) {
    exists d: Decimal :: d.Valid() && whole == d.Whole() && fraction == d.Fraction()
  }

  lemma {:induction false} Parted(d: Decimal, whole: string, fraction: string)
    requires d.Valid() && whole == d.Whole() && fraction == d.Fraction()
    ensures HasDecimal(whole, fraction)
  {
  }

  lemma {:induction false} FormHasDecimal(unit: int, whole: string, fraction: string, v: int)
    requires Valid(unit) && |fraction| <= DecimalsOf(unit) && SomeForm(unit, whole, fraction, v) && NoSign(fraction)
    ensures HasDecimal(whole, fraction)
  {
    if PlainForm(unit, whole, fraction, v) {
      var lead: string, sign: string, digits: string :|
        && Blanks(lead) && IsSign(sign) && AllDigits(digits) && whole == lead + sign + digits
        && v == Exact(unit, sign, digits, fraction);
      JoinEmpty(lead + sign + digits);
      JoinEmpty(fraction);
      Parted(Decimal(lead, sign, digits, "", "", fraction, ""), whole, fraction);
    } else if TrailingForm(unit, whole, fraction, v) {
      var lead: string, sign: string, digits: string, more: string, trail: string :|
        && Blanks(lead) && IsSign(sign) && AllDigits(digits) && AllDigits(more) && digits + more != ""
        && trail != "" && Blanks(trail) && whole == lead + sign + digits && fraction == more + trail
        && v == Negated(sign, DigitsValue(digits, more));
      JoinEmpty(lead + sign + digits);
      JoinEmpty(more);
      Parted(Decimal(lead, sign, digits, "", "", more, trail), whole, fraction);
    } else if FractionForm(unit, whole, fraction, v) {
      FractionFormHasDecimal(unit, whole, fraction, v);
    } else {
      var r: Reading :| r.Valid() && r.trail != "" && whole == r.Text() && v == Negated(r.sign, Value(r.digits));
      JoinAssociates(r.lead, r.sign, r.digits);
      JoinEmpty(fraction);
      Parted(Decimal(r.lead, r.sign, r.digits, r.trail, fraction, "", ""), whole, fraction);
    }
  }

  lemma {:induction false} SignShows(lead: string, sign: string, digits: string, trail: string)
    requires IsSign(sign)
    ensures NoSign(lead + sign + digits + trail) ==> sign == ""
  {
    assert sign != "" ==> (lead + sign + digits + trail)[|lead|] == sign[0];
  }

  lemma {:induction false} FractionFormHasDecimal(unit: int, whole: string, fraction: string, v: int)
    requires FractionForm(unit, whole, fraction, v) && NoSign(fraction)
    ensures HasDecimal(whole, fraction)
  {
    var lead: string, sign: string, digits: string, trail: string :|
      FractionParts(unit, fraction, lead, sign, digits, trail, v);
    assert sign == "" by { SignShows(lead, sign, digits, trail); }
    JoinEmpty(whole);
    JoinEmpty(lead);
    Parted(Decimal(whole, "", "", "", lead, digits, trail), whole, fraction);
  }

  /** Every accepted text denotes a decimal, unless there is a sign in its fraction. */
  lemma {:induction false} DenotesIffNoSignInFraction(unit: int, text: string, v: int)
    requires Parse(unit, text) == Some(v)
    ensures PartsOf(text).Some?
    ensures (exists d: Decimal :: Denotes(text, d)) <==> NoSign(PartsOf(text).value.1)
  {
    AcceptedForms(unit, text, v);
    var (whole, fraction) := PartsOf(text).value;
    if NoSign(fraction) {
      FormHasDecimal(unit, whole, fraction, v);
      var d: Decimal :| d.Valid() && whole == d.Whole() && fraction == d.Fraction();
      assert Denotes(text, d);
    } else if d: Decimal :| Denotes(text, d) {
      FractionHasNoSign(d);
    }
  }

  // ---------------------------------------------------------------- a sign in the fraction

  lemma {:induction false} SignedFractionReads(unit: int, sign: string, digits: string)
    requires Valid(unit) && IsSign(sign) && AllDigits(digits) && |sign + digits| <= DecimalsOf(unit) && |sign| == 1
    ensures ReadsAs(Filled(unit, "", sign + digits),
                    Negated(sign, Value(digits) * Pow10(DecimalsOf(unit) - |sign + digits|)))
  {
    assert "" + sign + digits + "" == sign + digits;
    FractionReads(unit, "", "", sign, digits, "");
  }

  lemma {:induction false} SignedTextSplits(sign: string, digits: string)
    requires IsSign(sign) && AllDigits(digits)
    ensures PartsOf("." + (sign + digits)) == Some(("", sign + digits))
  {
    var text := "." + (sign + digits);
    DigitsAreSpaceless(digits);
    RemoveNoSpaces(text);
    assert text == "" + "." + (sign + digits);
    SplitOneDot("", sign + digits);
  }

  /** A fraction that starts with a sign is accepted as long as it fits the decimals, and the sign takes the place of
      a digit. */
  lemma {:induction false} SignInFractionIsAccepted(unit: int, sign: string, digits: string)
    requires Valid(unit) && IsSign(sign) && sign != "" && AllDigits(digits)
    ensures Parse(unit, "." + (sign + digits)) ==
            if |sign + digits| <= DecimalsOf(unit)
            then Some(Negated(sign, Value(digits) * Pow10(DecimalsOf(unit) - |sign + digits|)))
            else None
  {
    SignedTextSplits(sign, digits);
    if |sign + digits| <= DecimalsOf(unit) {
      var v := Negated(sign, Value(digits) * Pow10(DecimalsOf(unit) - |sign + digits|));
      SignedFractionReads(unit, sign, digits);
      AcceptedIff(unit, "." + (sign + digits), v);
    }
  }

  lemma {:induction false} MinusFiveInFraction()
    ensures Parse(UBTC, ".-5") == Some(-5)
  {
    OneDigit('5');
    assert ".-5" == "." + ("-" + "5");
    assert Pow10(0) == 1;
    SignInFractionIsAccepted(UBTC, "-", "5");
  }
}
