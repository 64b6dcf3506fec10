/**
 Text keys that must sort like numbers: the zero-padded status key of a transaction row (updateStatus in
 hub-qt/transactionrecord.cpp) and the space-padded columns of the coin list (strPad in hub-qt/coincontroldialog.cpp).
 */
module SortKeys {
  import opened Decimals

  /** Lexicographic order by character code. */
  predicate Less(a: string, b: string)
    decreases a
  {
    b != "" && (a == "" || a[0] < b[0] || (a[0] == b[0] && Less(a[1..], b[1..])))
  }

  lemma {:induction false} LessIrreflexive(a: string)
    ensures !Less(a, a)
  {
    if a != "" { LessIrreflexive(a[1..]); }
  }

  /** Strings with first parts of equal length compare by these parts first. */
  lemma {:induction false} LessConcat(a: string, b: string, c: string, d: string)
    requires |a| == |b|
    ensures Less(a + c, b + d) <==> Less(a, b) || (a == b && Less(c, d))
    decreases a
  {
    if a == "" {
      assert a + c == c && b + d == d;
    } else {
      assert (a + c)[1..] == a[1..] + c && (b + d)[1..] == b[1..] + d;
      LessConcat(a[1..], b[1..], c, d);
      assert a == [a[0]] + a[1..] && b == [b[0]] + b[1..];
    }
  }

  lemma {:induction false} LastDigits(x: int, d: int, y: int, e: int)
    requires 10 * x + d == 10 * y + e && 0 <= d < 10 && 0 <= e < 10
    ensures x == y && d == e
  {
  }

  lemma {:induction false} DigitsInject(a: string, b: string)
    requires |a| == |b| && AllDigits(a) && AllDigits(b) && Value(a) == Value(b)
    ensures a == b
  {
    if a != "" {
      var a1, b1 := a[..|a| - 1], b[..|b| - 1];
      LastDigits(Value(a1), DigitValue(a[|a| - 1]), Value(b1), DigitValue(b[|b| - 1]));
      DigitsInject(a1, b1);
      assert a == a1 + [a[|a| - 1]] && b == b1 + [b[|b| - 1]];
    }
  }

  /** Digit strings of equal length sort like the numbers they denote. */
  lemma {:induction false} EqualLengthDigitsSortByValue(a: string, b: string)
    requires |a| == |b| && AllDigits(a) && AllDigits(b)
    ensures Less(a, b) <==> Value(a) < Value(b)
  {
    if a != "" {
      var a1, b1 := a[..|a| - 1], b[..|b| - 1];
      var x, y := a[|a| - 1], b[|b| - 1];
      EqualLengthDigitsSortByValue(a1, b1);
      assert a == a1 + [x] && b == b1 + [y];
      LessConcat(a1, b1, [x], [y]);
      assert Less([x], [y]) <==> DigitValue(x) < DigitValue(y);
      if Value(a1) == Value(b1) { DigitsInject(a1, b1); }
    }
  }

  // ---------------------------------------------------------------- the status key

  datatype Key = Key(height: nat, coinbase: bool, time: nat, idx: nat)

  const MAX_HEIGHT := 0x7fff_ffff
  const MAX_TIME := 0xffff_ffff

  /** Heights are ints and times unsigned 32-bit; a row without a block has the greatest height. */
  predicate InRange(k: Key) { k.height <= MAX_HEIGHT && k.time <= MAX_TIME }

  function Zeros(n: nat, width: nat): string { PadLeft(Number(n), width, '0') }

  function Flag(b: bool): string { if b then "1" else "0" }

  function Stem(k: Key): string { Zeros(k.height, 10) + "-" + Flag(k.coinbase) + "-" + Zeros(k.time, 10) + "-" }

  function SortKey(k: Key): string { Stem(k) + Zeros(k.idx, 3) }

  function Bit(b: bool): nat { if b then 1 else 0 }

  /** The order the key is meant to give. */
  predicate Before(a: Key, b: Key) {
    || a.height < b.height
    || (a.height == b.height && Bit(a.coinbase) < Bit(b.coinbase))
    || (a.height == b.height && a.coinbase == b.coinbase && a.time < b.time)
    || (a.height == b.height && a.coinbase == b.coinbase && a.time == b.time && a.idx < b.idx)
  }

  lemma {:induction false} ZerosSort(m: nat, n: nat, width: nat)
    requires width > 0 && m < Pow10(width) && n < Pow10(width)
    ensures |Zeros(m, width)| == |Zeros(n, width)| == width
    ensures Less(Zeros(m, width), Zeros(n, width)) <==> m < n
    ensures Zeros(m, width) == Zeros(n, width) <==> m == n
  {
    NumberLength(m, width);
    NumberLength(n, width);
    PadLeftValue(Number(m), width);
    PadLeftValue(Number(n), width);
    ValueOfNumber(m);
    ValueOfNumber(n);
    EqualLengthDigitsSortByValue(Zeros(m, width), Zeros(n, width));
  }

  lemma {:induction false} Powers()
    ensures Pow10(3) == 1000 && Pow10(10) == 10_000_000_000
  {
    assert Pow10(0) == 1 && Pow10(1) == 10 && Pow10(2) == 100;
    PowAdd(3, 3);
    PowAdd(6, 4);
    assert Pow10(4) == 10 * Pow10(3);
  }

  lemma {:induction false} FlagsSort(a: bool, b: bool)
    ensures Less(Flag(a), Flag(b)) <==> Bit(a) < Bit(b)
  {
    LessIrreflexive(Flag(a));
  }

  lemma {:induction false} StemsSort(a: Key, b: Key)
    requires InRange(a) && InRange(b)
    ensures |Stem(a)| == |Stem(b)|
    ensures Less(Stem(a), Stem(b)) <==> Before(a.(idx := 0), b.(idx := 0))
    ensures Stem(a) == Stem(b) <==> a.(idx := 0) == b.(idx := 0)
  {
    Powers();
    ZerosSort(a.height, b.height, 10);
    ZerosSort(a.time, b.time, 10);
    FlagsSort(a.coinbase, b.coinbase);
    LessIrreflexive("-");
    var ah, bh := Zeros(a.height, 10), Zeros(b.height, 10);
    var af, bf := Flag(a.coinbase), Flag(b.coinbase);
    var at, bt := Zeros(a.time, 10), Zeros(b.time, 10);
    LessConcat(ah, bh, "-", "-");
    LessConcat(ah + "-", bh + "-", af, bf);
    LessConcat(ah + "-" + af, bh + "-" + bf, "-", "-");
    LessConcat(ah + "-" + af + "-", bh + "-" + bf + "-", at, bt);
    LessConcat(ah + "-" + af + "-" + at, bh + "-" + bf + "-" + bt, "-", "-");
    StemParts(ah, bh, af, bf, at, bt);
  }

  /** Equal joins of parts of equal lengths have equal parts. */
  lemma {:induction false} StemParts(ah: string, bh: string, af: string, bf: string, at: string, bt: string)
    requires |ah| == |bh| && |af| == |bf| && |at| == |bt|
    ensures ah + "-" == bh + "-" <==> ah == bh
    ensures ah + "-" + af == bh + "-" + bf <==> ah == bh && af == bf
    ensures ah + "-" + af + "-" == bh + "-" + bf + "-" <==> ah == bh && af == bf
    ensures ah + "-" + af + "-" + at == bh + "-" + bf + "-" + bt <==> ah == bh && af == bf && at == bt
    ensures ah + "-" + af + "-" + at + "-" == bh + "-" + bf + "-" + bt + "-" <==> ah == bh && af == bf && at == bt
  {
    SplitAt(ah, bh, "-", "-");
    SplitAt(ah + "-", bh + "-", af, bf);
    SplitAt(ah + "-" + af, bh + "-" + bf, "-", "-");
    SplitAt(ah + "-" + af + "-", bh + "-" + bf + "-", at, bt);
    SplitAt(ah + "-" + af + "-" + at, bh + "-" + bf + "-" + bt, "-", "-");
  }

  lemma {:induction false} SplitAt(a: string, b: string, c: string, d: string)
    requires |a| == |b|
    ensures a + c == b + d ==> a == b && c == d
  {
    assert (a + c)[..|a|] == a && (b + d)[..|b|] == b;
    assert (a + c)[|a|..] == c && (b + d)[|b|..] == d;
  }

  /** For row numbers below 1000 the key sorts by height, then coinbase, then time, then row number. */
  lemma {:induction false} SortKeyOrders(a: Key, b: Key)
    requires InRange(a) && InRange(b) && a.idx < 1000 && b.idx < 1000
    ensures Less(SortKey(a), SortKey(b)) <==> Before(a, b)
  {
    Powers();
    StemsSort(a, b);
    ZerosSort(a.idx, b.idx, 3);
    LessConcat(Stem(a), Stem(b), Zeros(a.idx, 3), Zeros(b.idx, 3));
  }

  /** The rows of one transaction sort in row order under their keys. */
  ghost predicate RowsInOrder(k: Key, n: nat) {
    forall i, j :: 0 <= i < j < n ==> Less(SortKey(k.(idx := i)), SortKey(k.(idx := j)))
  }

  lemma {:induction false} ThousandSortsEarly(k: Key)
    requires InRange(k)
    ensures !Less(SortKey(k.(idx := 999)), SortKey(k.(idx := 1000)))
  {
    LessIrreflexive(Stem(k));
    assert Stem(k.(idx := 999)) == Stem(k.(idx := 1000)) == Stem(k);
    LessConcat(Stem(k), Stem(k), Zeros(999, 3), Zeros(1000, 3));
    assert Number(999) == Number(99) + ['9'] && Number(99) == Number(9) + ['9'];
    assert Number(1000) == Number(100) + ['0'] && Number(100) == Number(10) + ['0'] && Number(10) == Number(1) + ['0'];
    assert Zeros(999, 3)[0] == '9' && Zeros(1000, 3)[0] == '1';
  }

  /** The rows of a transaction sort in row order exactly when there are at most a thousand of them. */
  lemma {:induction false} RowsInOrderIffAtMostThousand(k: Key, n: nat)
    requires InRange(k)
    ensures RowsInOrder(k, n) <==> n <= 1000
  {
    if n <= 1000 {
      forall i, j | 0 <= i < j < n ensures Less(SortKey(k.(idx := i)), SortKey(k.(idx := j))) {
        SortKeyOrders(k.(idx := i), k.(idx := j));
      }
    } else {
      ThousandSortsEarly(k);
    }
  }

  // ---------------------------------------------------------------- space-padded columns

  /** strPad with a one-character padding. */
  method StrPad(s: string, width: nat, padding: char) returns (padded: string)
    ensures padded == PadLeft(s, width, padding)
  {
    padded := s;
    ghost var added := 0;
    while |padded| < width
      invariant added >= 0 && |padded| == |s| + added && padded == Repeat(padding, added) + s
      invariant |padded| <= width || added == 0
      decreases width - |padded|
    {
      padded := [padding] + padded;
      added := added + 1;
      assert Repeat(padding, added) == [padding] + Repeat(padding, added - 1);
    }
    assert Repeat(padding, 0) + s == s;
  }

  function Spaces(n: nat, width: nat): string { PadLeft(Number(n), width, ' ') }

  lemma {:induction false} SamePrefix(p: string, a: string, b: string)
    ensures Less(p + a, p + b) <==> Less(a, b)
  {
    LessConcat(p, p, a, b);
    LessIrreflexive(p);
  }

  lemma {:induction false} FewerDigitsSmaller(m: nat, n: nat)
    requires |Number(m)| < |Number(n)|
    ensures m < n
  {
    NumberLength(m, |Number(m)|);
    NumberLength(n, |Number(m)|);
  }

  lemma {:induction false} ShorterSortsFirst(m: nat, n: nat, width: nat)
    requires |Number(m)| < |Number(n)| <= width
    ensures Less(Spaces(m, width), Spaces(n, width)) && !Less(Spaces(n, width), Spaces(m, width))
  {
    var p := Repeat(' ', width - |Number(n)|);
    var gap := Repeat(' ', |Number(n)| - |Number(m)|);
    assert Spaces(n, width) == p + Number(n);
    assert Spaces(m, width) == p + (gap + Number(m));
    SamePrefix(p, gap + Number(m), Number(n));
    SamePrefix(p, Number(n), gap + Number(m));
    assert (gap + Number(m))[0] == ' ' && IsDigit(Number(n)[0]);
  }

  /** Space-padded numbers that fit the width sort like the numbers. */
  lemma {:induction false} SpacesSort(m: nat, n: nat, width: nat)
    requires width > 0 && m < Pow10(width) && n < Pow10(width)
    ensures Less(Spaces(m, width), Spaces(n, width)) <==> m < n
  {
    NumberLength(m, width);
    NumberLength(n, width);
    if |Number(m)| < |Number(n)| {
      ShorterSortsFirst(m, n, width);
      FewerDigitsSmaller(m, n);
    } else if |Number(n)| < |Number(m)| {
      ShorterSortsFirst(n, m, width);
      FewerDigitsSmaller(n, m);
    } else {
      var p := Repeat(' ', width - |Number(m)|);
      assert Spaces(m, width) == p + Number(m) && Spaces(n, width) == p + Number(n);
      SamePrefix(p, Number(m), Number(n));
      EqualLengthDigitsSortByValue(Number(m), Number(n));
      ValueOfNumber(m);
      ValueOfNumber(n);
    }
  }

  /** All numbers below `bound` sort in order in a column of this width. */
  ghost predicate ColumnInOrder(width: nat, bound: nat) {
    forall m, n :: 0 <= m < n < bound ==> Less(Spaces(m, width), Spaces(n, width))
  }

  lemma {:induction false} NinesAndPower(width: nat)
    requires width > 0
    ensures Number(Pow10(width))[0] == '1' && |Number(Pow10(width))| == width + 1
    ensures Pow10(width) > 1 && Number(Pow10(width) - 1)[0] == '9' && |Number(Pow10(width) - 1)| == width
  {
    assert Pow10(0) == 1;
    if width > 1 {
      NinesAndPower(width - 1);
      var p := Pow10(width - 1);
      assert (10 * p) / 10 == p && (10 * p - 1) / 10 == p - 1;
    } else {
      assert Pow10(1) == 10;
      assert Number(10) == Number(1) + ['0'];
    }
  }

  /** A column of width w sorts all numbers below a bound exactly when the bound is at most 10^w. */
  lemma {:induction false} ColumnInOrderIffFits(width: nat, bound: nat)
    requires width > 0
    ensures ColumnInOrder(width, bound) <==> bound <= Pow10(width)
  {
    if bound <= Pow10(width) {
      forall m, n | 0 <= m < n < bound ensures Less(Spaces(m, width), Spaces(n, width)) { SpacesSort(m, n, width); }
    } else {
      NinesAndPower(width);
      var m, n := Pow10(width) - 1, Pow10(width);
      assert Spaces(m, width) == Number(m) && Spaces(n, width) == Number(n);
      assert !Less(Spaces(m, width), Spaces(n, width));
    }
  }
}
