/**
 The figures that the coin selection dialog shows (updateLabels in hub-qt/coincontroldialog.cpp).
 The dust threshold and the minimum fee, which come from the node's settings, are parameters.
 */
module CoinControl {
  const MIN_CHANGE := 1_000_000
  const MAX_FREE_TRANSACTION_CREATE_SIZE := 1000
  const OUTPUT_BYTES := 34

  datatype OutPoint = OutPoint(txid: nat, index: nat)

  datatype Key = NoKey | Compressed | Uncompressed

  /** A selected output: whether it has been spent elsewhere since, and which key spends it. */
  datatype Coin = Coin(outpoint: OutPoint, value: int, key: Key, spent: bool)

  datatype Settings = Settings(
    subtractFee: bool,
    sendFree: bool,
    minimumFee: int -> int,
    minimumTotalFee: int,
    dust: int)

  datatype Labels = Labels(quantity: nat, amount: int, fee: int, afterFee: int, bytes: int, change: int,
                           dustOutput: bool)

  // ---------------------------------------------------------------- totals

  function Sum(amounts: seq<int>): int {
    if amounts == [] then 0 else Sum(amounts[..|amounts| - 1]) + amounts[|amounts| - 1]
  }

  lemma {:induction false} SumSnoc(amounts: seq<int>, x: int)
    ensures Sum(amounts + [x]) == Sum(amounts) + x
  {
    assert (amounts + [x])[..|amounts|] == amounts;
  }

  /** Adding up a figure of the first coins, one more coin at a time. */
  lemma {:induction false} SumOneMore(figures: seq<int>, i: nat)
    requires i < |figures|
    ensures Sum(figures[..i + 1]) == Sum(figures[..i]) + figures[i]
  {
    SumSnoc(figures[..i], figures[i]);
    assert figures[..i + 1] == figures[..i] + [figures[i]];
  }

  // The figures of the coins that have not been spent elsewhere.

  function Ones(coins: seq<Coin>): seq<int> {
    seq(|coins|, k requires 0 <= k < |coins| => if coins[k].spent then 0 else 1)
  }

  function LiveValues(coins: seq<Coin>): seq<int> {
    seq(|coins|, k requires 0 <= k < |coins| => if coins[k].spent then 0 else coins[k].value)
  }

  function LiveUncompressed(coins: seq<Coin>): seq<int> {
    seq(|coins|, k requires 0 <= k < |coins| => if !coins[k].spent && coins[k].key == Uncompressed then 1 else 0)
  }

  /** Another transaction has spent the coin at this outpoint. */
  ghost predicate IsSpent(coins: seq<Coin>, o: OutPoint) {
    exists k :: 0 <= k < |coins| && coins[k].spent && coins[k].outpoint == o
  }

  lemma {:induction false} IsSpentOneMore(coins: seq<Coin>, i: nat, o: OutPoint)
    requires i < |coins|
    ensures IsSpent(coins[..i + 1], o) <==> IsSpent(coins[..i], o) || (coins[i].spent && coins[i].outpoint == o)
  {
    if IsSpent(coins[..i + 1], o) {
      var k :| 0 <= k < i + 1 && coins[..i + 1][k].spent && coins[..i + 1][k].outpoint == o;
      if k < i { assert coins[..i][k] == coins[k]; }
    }
    if IsSpent(coins[..i], o) {
      var k :| 0 <= k < i && coins[..i][k].spent && coins[..i][k].outpoint == o;
      assert coins[..i + 1][k] == coins[k];
    }
    if coins[i].spent && coins[i].outpoint == o { assert coins[..i + 1][i] == coins[i]; }
  }

  /** The change is an output that the network relays, or the dialog would have avoided it. */
  predicate ShowableChange(change: int, dust: int) { change <= 0 || change >= MIN_CHANGE || change >= dust }

  // ---------------------------------------------------------------- the code

  /** The sum of what is paid and whether one of the outputs is dust. */
  method AddPayments(payAmounts: seq<int>, dust: int) returns (total: int, dustOutput: bool)
    ensures total == Sum(payAmounts)
    ensures dustOutput <==> exists k :: 0 <= k < |payAmounts| && 0 < payAmounts[k] < dust
  {
    total, dustOutput := 0, false;
    for i := 0 to |payAmounts|
      invariant total == Sum(payAmounts[..i])
      invariant dustOutput <==> exists k :: 0 <= k < i && 0 < payAmounts[k] < dust
    {
      assert payAmounts[..i + 1][..i] == payAmounts[..i];
      total := total + payAmounts[i];
      if payAmounts[i] > 0 && payAmounts[i] < dust {
        dustOutput := true;
      }
    }
    assert payAmounts[..|payAmounts|] == payAmounts;
  }

  /** Counts the live coins and drops the spent ones from the selection. */
  method AddCoins(coins: seq<Coin>, selected: set<OutPoint>)
    returns (quantity: nat, amount: int, inputBytes: nat, kept: set<OutPoint>)
    ensures quantity == Sum(Ones(coins)) && amount == Sum(LiveValues(coins))
    ensures inputBytes == 148 * quantity + 32 * Sum(LiveUncompressed(coins))
    ensures forall o :: o in kept <==> o in selected && !IsSpent(coins, o)
  {
    quantity, amount, inputBytes, kept := 0, 0, 0, selected;
    for i := 0 to |coins|
      invariant quantity == Sum(Ones(coins)[..i]) && amount == Sum(LiveValues(coins)[..i])
      invariant inputBytes == 148 * quantity + 32 * Sum(LiveUncompressed(coins)[..i])
      invariant forall o :: o in kept <==> o in selected && !IsSpent(coins[..i], o)
    {
      var c := coins[i];
      SumOneMore(Ones(coins), i);
      SumOneMore(LiveValues(coins), i);
      SumOneMore(LiveUncompressed(coins), i);
      forall o { IsSpentOneMore(coins, i, o); }
      if c.spent {
        kept := kept - {c.outpoint};
      } else {
        quantity, amount := quantity + 1, amount + c.value;
        match c.key {
          case Compressed => inputBytes := inputBytes + 148;
          case Uncompressed => inputBytes := inputBytes + 180;
          case NoKey => inputBytes := inputBytes + 148;
        }
      }
    }
    assert coins[..|coins|] == coins && Ones(coins)[..|coins|] == Ones(coins);
    assert LiveValues(coins)[..|coins|] == LiveValues(coins);
    assert LiveUncompressed(coins)[..|coins|] == LiveUncompressed(coins);
  }

  /** The fee that is due for `bytes`, without what is swallowed as dust. */
  predicate IsDue(settings: Settings, bytes: int, due: int) {
    && (settings.sendFree && bytes <= 1000 ==> due == 0)
    && (!settings.sendFree || bytes > 1000 ==>
          && (settings.minimumFee(bytes) <= 0 ==> due == settings.minimumFee(bytes))
          && (settings.minimumFee(bytes) > 0 ==>
                due >= settings.minimumFee(bytes) && due >= settings.minimumTotalFee
                && (due == settings.minimumFee(bytes) || due == settings.minimumTotalFee)))
  }

  /** The fee, the change and the size, when `due` is the fee due for the size estimate `b`: change below the dust
      threshold is added to the fee, or raised to the threshold if the fee is taken from the payments. */
  predicate IsSettled(payments: nat, pay: int, amount: int, settings: Settings, b: int, due: int, fee: int, change: int,
                      bytes: int)
  {
    var left := amount - pay - if settings.subtractFee then 0 else due;
    var dusty := 0 < left < 1_000_000 && left < settings.dust;
    && (pay <= 0 ==> fee == due && change == 0 && bytes == b)
    && (pay > 0 && !dusty ==> fee == due && change == left)
    && (pay > 0 && dusty && settings.subtractFee ==> fee == due && change == settings.dust)
    && (pay > 0 && dusty && !settings.subtractFee ==> fee == due + left && change == 0)
    && (pay > 0 ==> bytes == b - if change == 0 && !settings.subtractFee then 34 else 0)
  }

  /** The size estimate that is costed: with a change output, unless the fee is taken from the payments and nothing is
      left over. */
  predicate IsCosted(payments: nat, pay: int, amount: int, inputBytes: int, settings: Settings, b: int) {
    && (payments > 0 && !(settings.subtractFee && amount == pay) ==> b == inputBytes + 10 + 34 * (payments + 1))
    && (payments > 0 && settings.subtractFee && amount == pay ==> b == inputBytes + 10 + 34 * payments)
    && (payments == 0 && !(settings.subtractFee && amount == pay) ==> b == inputBytes + 10 + 34 * 2)
    && (payments == 0 && settings.subtractFee && amount == pay ==> b == inputBytes + 10 + 34)
  }

  /** The calculation for at least one live coin. */
  method Calculate(payments: nat, pay: int, amount: int, inputBytes: nat, settings: Settings)
    returns (fee: int, change: int, bytes: int, afterFee: int, ghost b: int, ghost due: int)
    requires pay > 0 ==> payments > 0
    ensures IsCosted(payments, pay, amount, inputBytes, settings, b) && IsDue(settings, b, due)
    ensures IsSettled(payments, pay, amount, settings, b, due, fee, change, bytes)
    ensures pay > 0 && !settings.subtractFee ==> amount == pay + fee + change
    ensures pay > 0 && settings.subtractFee ==>
              (amount == pay + change <==> ShowableChange(amount - pay, settings.dust))
    ensures pay > 0 ==> bytes == inputBytes + 10 + OUTPUT_BYTES * payments + if change != 0 then OUTPUT_BYTES else 0
    ensures pay > 0 ==> ShowableChange(change, settings.dust)
    ensures afterFee == if amount < fee then 0 else amount - fee
  {
    bytes := inputBytes + (if payments > 0 then payments + 1 else 2) * OUTPUT_BYTES + 10;
    if settings.subtractFee && amount - pay == 0 {
      bytes := bytes - OUTPUT_BYTES;
    }
    fee := settings.minimumFee(bytes);
    if fee > 0 && settings.minimumTotalFee > fee {
      fee := settings.minimumTotalFee;
    }
    if settings.sendFree && bytes <= MAX_FREE_TRANSACTION_CREATE_SIZE {
      fee := 0;
    }
    b, due := bytes, fee;
    change := 0;
    if pay > 0 {
      change := amount - pay;
      if !settings.subtractFee {
        change := change - fee;
      }
      if 0 < change < MIN_CHANGE && change < settings.dust {
        if settings.subtractFee {
          change := settings.dust;
        } else {
          fee := fee + change;
          change := 0;
        }
      }
      if change == 0 && !settings.subtractFee {
        bytes := bytes - OUTPUT_BYTES;
      }
    }
    afterFee := if amount - fee < 0 then 0 else amount - fee;
  }

  lemma {:induction false} PositiveSumHasPayments(payAmounts: seq<int>)
    ensures Sum(payAmounts) > 0 ==> |payAmounts| > 0
  {
  }

  /** updateLabels: nothing is shown without a live coin.  Otherwise the fee is the one due for the estimated size, plus
      only dust that would have been change; and while something is paid, the selected amount is what is paid, the fee
      and the change, and the size has an output per payment and one for non-zero change. */
  method UpdateLabels(payAmounts: seq<int>, coins: seq<Coin>, selected: set<OutPoint>, settings: Settings)
    returns (l: Labels, kept: set<OutPoint>)
    ensures forall o :: o in kept <==> o in selected && !IsSpent(coins, o)
    ensures l.quantity == Sum(Ones(coins)) && l.amount == Sum(LiveValues(coins))
    ensures l.dustOutput <==> exists k :: 0 <= k < |payAmounts| && 0 < payAmounts[k] < settings.dust
    ensures l.quantity == 0 ==> l.fee == l.afterFee == l.change == l.bytes == 0
    ensures l.quantity > 0 ==>
            exists b, due ::
              && IsCosted(|payAmounts|, Sum(payAmounts), l.amount,
                          148 * l.quantity + 32 * Sum(LiveUncompressed(coins)), settings, b)
              && IsDue(settings, b, due)
              && IsSettled(|payAmounts|, Sum(payAmounts), l.amount, settings, b, due, l.fee, l.change, l.bytes)
    ensures l.quantity > 0 && Sum(payAmounts) > 0 && !settings.subtractFee ==>
            l.amount == Sum(payAmounts) + l.fee + l.change
    ensures l.quantity > 0 && Sum(payAmounts) > 0 && settings.subtractFee ==>
              (l.amount == Sum(payAmounts) + l.change <==> ShowableChange(l.amount - Sum(payAmounts), settings.dust))
    ensures l.quantity > 0 && Sum(payAmounts) > 0 ==>
              && l.bytes == 148 * l.quantity + 32 * Sum(LiveUncompressed(coins)) + 10 + 34 * |payAmounts| +
                            (if l.change != 0 then 34 else 0)
              && ShowableChange(l.change, settings.dust)
    ensures l.quantity > 0 ==> l.afterFee == if l.amount < l.fee then 0 else l.amount - l.fee
  {
    var pay, dustOutput := AddPayments(payAmounts, settings.dust);
    var quantity, amount, inputBytes, remaining := AddCoins(coins, selected);
    kept := remaining;
    var fee, change, bytes, afterFee := 0, 0, 0, 0;
    if quantity > 0 {
      PositiveSumHasPayments(payAmounts);
      ghost var b, due;
      fee, change, bytes, afterFee, b, due := Calculate(|payAmounts|, pay, amount, inputBytes, settings);
    }
    l := Labels(quantity, amount, fee, afterFee, bytes, change, dustOutput);
  }
}
