/**
 The rows the wallet view shows for one transaction (hub-qt/transactionrecord.cpp).

 A wallet transaction is decomposed into one row per received output, one row per
 paid recipient, or a single row.  The ownership of inputs and outputs, the destination
 of a script and the address book are inputs of the model.
 */
module TransactionRecords {

  type Hash = nat

  /** Ownership of an output or of the output an input spends; the codes are ordered as in the wallet. */
  datatype Mine = NotMine | WatchUnsolvable | WatchSolvable | Spendable {
    function Code(): nat {
      match this
      case NotMine => 0
      case WatchUnsolvable => 1
      case WatchSolvable => 2
      case Spendable => 4
    }

    predicate WatchOnly() {
      WatchUnsolvable? || WatchSolvable?
    }
  }

  datatype Destination = NoDestination | Destination(address: string, mine: bool, inAddressBook: bool)

  datatype TxIn = TxIn(mine: Mine, value: int)

  datatype TxOut = TxOut(mine: Mine, value: int, destination: Destination) {
    /** Ours, but not an address the user knows. */
    predicate Change() {
      !mine.NotMine? && (destination.NoDestination? || !destination.inAddressBook)
    }
  }

  datatype Tx = Tx(hash: Hash, time: int, coinbase: bool, mature: bool,
                   vin: seq<TxIn>, vout: seq<TxOut>, from: string, to: string)

  datatype Kind = Other | Generated | SendToAddress | SendToOther | RecvWithAddress | RecvFromOther | SendToSelf

  datatype Record = Record(hash: Hash, time: int, kind: Kind, address: string,
                           debit: int, credit: int, idx: nat, watch: bool)

  // ---------------------------------------------------------------- wallet sums

  /** Sum of the first `n` inputs selected by `f`. */
  function InSum(tx: Tx, f: Mine -> bool, n: nat): int
    requires n <= |tx.vin|
  {
    if n == 0 then 0 else InSum(tx, f, n - 1) + if f(tx.vin[n - 1].mine) then tx.vin[n - 1].value else 0
  }

  /** Sum of the first `n` outputs selected by `f`. */
  function OutSum(tx: Tx, f: TxOut -> bool, n: nat): int
    requires n <= |tx.vout|
  {
    if n == 0 then 0 else OutSum(tx, f, n - 1) + if f(tx.vout[n - 1]) then tx.vout[n - 1].value else 0
  }

  /** Debit over spendable inputs plus debit over watch-only inputs. */
  function Debit(tx: Tx): int {
    InSum(tx, (m: Mine) => m.Spendable?, |tx.vin|) + InSum(tx, (m: Mine) => m.WatchOnly(), |tx.vin|)
  }

  /** Credit over spendable outputs plus credit over watch-only outputs; nothing for an immature coinbase. */
  function Credit(tx: Tx): int {
    if tx.coinbase && !tx.mature then 0
    else OutSum(tx, (o: TxOut) => o.mine.Spendable?, |tx.vout|) +
         OutSum(tx, (o: TxOut) => o.mine.WatchOnly(), |tx.vout|)
  }

  function ChangeOut(tx: Tx): int {
    OutSum(tx, (o: TxOut) => o.Change(), |tx.vout|)
  }

  function ValueOut(tx: Tx): int {
    OutSum(tx, (o: TxOut) => true, |tx.vout|)
  }

  function Owned(): TxOut -> bool { (o: TxOut) => !o.mine.NotMine? }

  function Foreign(): TxOut -> bool { (o: TxOut) => o.mine.NotMine? }

  function Net(tx: Tx): int { Credit(tx) - Debit(tx) }

  function Fee(tx: Tx): int { Debit(tx) - ValueOut(tx) }

  // ---------------------------------------------------------------- specification

  predicate AllFromMe(tx: Tx) { forall i :: 0 <= i < |tx.vin| ==> !tx.vin[i].mine.NotMine? }

  predicate AllToMe(tx: Tx) { forall i :: 0 <= i < |tx.vout| ==> !tx.vout[i].mine.NotMine? }

  predicate InvolvesWatch(tx: Tx) {
    || (exists i :: 0 <= i < |tx.vin| && tx.vin[i].mine.WatchOnly())
    || (exists i :: 0 <= i < |tx.vout| && tx.vout[i].mine.WatchOnly())
  }

  function ReceivedRow(tx: Tx, out: TxOut, idx: nat): Record {
    var known := out.destination.Destination? && out.destination.mine;
    Record(tx.hash, tx.time,
           if tx.coinbase then Generated else if known then RecvWithAddress else RecvFromOther,
           if known then out.destination.address else tx.from,
           0, out.value, idx, out.mine.WatchOnly())
  }

  function SentRow(tx: Tx, out: TxOut, idx: nat, fee: int): Record {
    var known := out.destination.Destination?;
    Record(tx.hash, tx.time,
           if known then SendToAddress else SendToOther,
           if known then out.destination.address else tx.to,
           -(out.value + fee), 0, idx, InvolvesWatch(tx))
  }

  /** One row per owned output among the first `n`, in order. */
  function Received(tx: Tx, n: nat): seq<Record>
    requires n <= |tx.vout|
  {
    if n == 0 then []
    else
      var rows := Received(tx, n - 1);
      if tx.vout[n - 1].mine.NotMine? then rows else rows + [ReceivedRow(tx, tx.vout[n - 1], |rows|)]
  }

  /** One row per foreign output among the first `n`, in order; a positive fee goes to the first of them. */
  function Sent(tx: Tx, n: nat): seq<Record>
    requires n <= |tx.vout|
  {
    if n == 0 then []
    else
      var rows := Sent(tx, n - 1);
      if !tx.vout[n - 1].mine.NotMine? then rows
      else rows + [SentRow(tx, tx.vout[n - 1], |rows|, if rows == [] && Fee(tx) > 0 then Fee(tx) else 0)]
  }

  /** The rows of a transaction. */
  function Decompose(tx: Tx): seq<Record> {
    if Net(tx) > 0 || tx.coinbase then Received(tx, |tx.vout|)
    else if AllFromMe(tx) && AllToMe(tx) then
      [Record(tx.hash, tx.time, SendToSelf, "", -(Debit(tx) - ChangeOut(tx)), Credit(tx) - ChangeOut(tx), 0,
              InvolvesWatch(tx))]
    else if AllFromMe(tx) then Sent(tx, |tx.vout|)
    else [Record(tx.hash, tx.time, Other, "", Net(tx), 0, 0, InvolvesWatch(tx))]
  }

  /** What the rows add to the displayed balance. */
  function Total(rows: seq<Record>): int {
    if rows == [] then 0 else Total(rows[..|rows| - 1]) + rows[|rows| - 1].debit + rows[|rows| - 1].credit
  }

  // ---------------------------------------------------------------- the code

  /** decomposeTransaction: the loops, the running minima of the ownership codes and the fee that is zeroed once
      charged. */
  method DecomposeTransaction(tx: Tx) returns (parts: seq<Record>)
    ensures parts == Decompose(tx)
  {
    parts := [];
    var credit, debit := Credit(tx), Debit(tx);
    var net := credit - debit;
    if net > 0 || tx.coinbase {
      for n := 0 to |tx.vout|
        invariant parts == Received(tx, n)
      {
        var out := tx.vout[n];
        if out.mine.Code() != 0 {
          var kind, address := RecvFromOther, tx.from;
          if out.destination.Destination? && out.destination.mine {
            kind, address := RecvWithAddress, out.destination.address;
          }
          if tx.coinbase {
            kind := Generated;
          }
          parts := parts + [Record(tx.hash, tx.time, kind, address, 0, out.value, |parts|, out.mine.WatchOnly())];
        }
      }
    } else {
      var watch := false;
      var fromMe: nat := Spendable.Code();
      for i := 0 to |tx.vin|
        invariant watch <==> exists k :: 0 <= k < i && tx.vin[k].mine.WatchOnly()
        invariant fromMe != 0 <==> forall k :: 0 <= k < i ==> !tx.vin[k].mine.NotMine?
      {
        if tx.vin[i].mine.WatchOnly() { watch := true; }
        if fromMe > tx.vin[i].mine.Code() { fromMe := tx.vin[i].mine.Code(); }
      }
      var toMe: nat := Spendable.Code();
      ghost var watchIn := watch;
      for i := 0 to |tx.vout|
        invariant watch <==> watchIn || exists k :: 0 <= k < i && tx.vout[k].mine.WatchOnly()
        invariant toMe != 0 <==> forall k :: 0 <= k < i ==> !tx.vout[k].mine.NotMine?
      {
        if tx.vout[i].mine.WatchOnly() { watch := true; }
        if toMe > tx.vout[i].mine.Code() { toMe := tx.vout[i].mine.Code(); }
      }
      if fromMe != 0 && toMe != 0 {
        var change := ChangeOut(tx);
        parts := [Record(tx.hash, tx.time, SendToSelf, "", -(debit - change), credit - change, 0, watch)];
      } else if fromMe != 0 {
        var fee := debit - ValueOut(tx);
        for n := 0 to |tx.vout|
          invariant parts == Sent(tx, n)
          invariant fee == if parts != [] && Fee(tx) > 0 then 0 else Fee(tx)
        {
          var out := tx.vout[n];
          if out.mine.Code() == 0 {
            var kind, address := SendToOther, tx.to;
            if out.destination.Destination? {
              kind, address := SendToAddress, out.destination.address;
            }
            var value := out.value;
            if fee > 0 {
              value := value + fee;
              fee := 0;
            }
            parts := parts + [Record(tx.hash, tx.time, kind, address, -value, 0, |parts|, watch)];
          }
        }
      } else {
        parts := [Record(tx.hash, tx.time, Other, "", net, 0, 0, watch)];
      }
    }
  }

  // ---------------------------------------------------------------- properties

  lemma {:induction false} OwnedSplit(tx: Tx, n: nat)
    requires n <= |tx.vout|
    ensures OutSum(tx, (o: TxOut) => o.mine.Spendable?, n) + OutSum(tx, (o: TxOut) => o.mine.WatchOnly(), n) ==
            OutSum(tx, Owned(), n)
    ensures OutSum(tx, Owned(), n) + OutSum(tx, Foreign(), n) == OutSum(tx, (o: TxOut) => true, n)
  {
    if n > 0 { OwnedSplit(tx, n - 1); }
  }

  /** Outside an immature coinbase the wallet's credit is exactly the value of the owned outputs. */
  lemma {:induction false} CreditIsOwnedValue(tx: Tx)
    requires !(tx.coinbase && !tx.mature)
    ensures Credit(tx) == OutSum(tx, Owned(), |tx.vout|)
    ensures Credit(tx) + OutSum(tx, Foreign(), |tx.vout|) == ValueOut(tx)
  {
    OwnedSplit(tx, |tx.vout|);
  }

  lemma {:induction false} TotalSnoc(rows: seq<Record>, r: Record)
    ensures Total(rows + [r]) == Total(rows) + r.debit + r.credit
  {
    assert (rows + [r])[..|rows|] == rows;
  }

  lemma {:induction false} TotalOne(r: Record)
    ensures Total([r]) == r.debit + r.credit
  {
    assert [r][..0] == [];
  }

  lemma {:induction false} ReceivedTotal(tx: Tx, n: nat)
    requires n <= |tx.vout|
    ensures Total(Received(tx, n)) == OutSum(tx, Owned(), n)
  {
    if n > 0 {
      ReceivedTotal(tx, n - 1);
      if Owned()(tx.vout[n - 1]) {
        var rows := Received(tx, n - 1);
        TotalSnoc(rows, ReceivedRow(tx, tx.vout[n - 1], |rows|));
      }
    }
  }

  lemma {:induction false} SentEmpty(tx: Tx, n: nat)
    requires n <= |tx.vout|
    ensures Sent(tx, n) == [] <==> forall i :: 0 <= i < n ==> !tx.vout[i].mine.NotMine?
  {
    if n > 0 { SentEmpty(tx, n - 1); }
  }

  lemma {:induction false} SentTotal(tx: Tx, n: nat)
    requires n <= |tx.vout|
    ensures Total(Sent(tx, n)) == -OutSum(tx, Foreign(), n) - if Sent(tx, n) != [] && Fee(tx) > 0 then Fee(tx) else 0
  {
    if n > 0 {
      SentTotal(tx, n - 1);
      var rows := Sent(tx, n - 1);
      if tx.vout[n - 1].mine.NotMine? {
        var row := SentRow(tx, tx.vout[n - 1], |rows|, if rows == [] && Fee(tx) > 0 then Fee(tx) else 0);
        assert Sent(tx, n) == rows + [row];
        TotalSnoc(rows, row);
      }
    }
  }

  /** The one way the rows can misstate the net effect: everything spent is ours, somebody else is paid,
      and the outputs are worth more than the inputs. */
  predicate Overspent(tx: Tx) {
    AllFromMe(tx) && !AllToMe(tx) && Debit(tx) < ValueOut(tx)
  }

  /** Conservation for a transaction that does not gain: the rows add up to the wallet's net change,
      exactly when the transaction is not overspent. */
  lemma {:induction false} NetIsConserved(tx: Tx)
    requires !tx.coinbase && Net(tx) <= 0
    ensures Total(Decompose(tx)) == Net(tx) <==> !Overspent(tx)
    ensures Overspent(tx) ==> Total(Decompose(tx)) == Net(tx) + Fee(tx)
  {
    CreditIsOwnedValue(tx);
    if AllFromMe(tx) && !AllToMe(tx) {
      SentEmpty(tx, |tx.vout|);
      SentTotal(tx, |tx.vout|);
    } else {
      TotalOne(Decompose(tx)[0]);
    }
  }

  /** For a transaction that gains, and for a coinbase, the rows add up to the owned outputs:
      the wallet's credit, not its net change. */
  lemma {:induction false} GainIsCredit(tx: Tx)
    requires tx.coinbase || Net(tx) > 0
    ensures Total(Decompose(tx)) == OutSum(tx, Owned(), |tx.vout|)
    ensures !(tx.coinbase && !tx.mature) ==> Total(Decompose(tx)) == Credit(tx)
  {
    ReceivedTotal(tx, |tx.vout|);
    OwnedSplit(tx, |tx.vout|);
  }

  /** When the rows add up to the net effect: a coinbase still immature, whose credit does not count yet, must pay us
      what it spends negated; another transaction that gains must spend nothing of ours; and one that does not gain
      must not be overspent. */
  predicate AddsUp(tx: Tx) {
    if tx.coinbase && !tx.mature then OutSum(tx, Owned(), |tx.vout|) == -Debit(tx)
    else if tx.coinbase || Net(tx) > 0 then Debit(tx) == 0
    else !Overspent(tx)
  }

  /** The rows of any transaction add up to its net effect on the wallet exactly under that condition. */
  lemma {:induction false} RowsAddUpToNetIff(tx: Tx)
    ensures Total(Decompose(tx)) == Net(tx) <==> AddsUp(tx)
  {
    if tx.coinbase || Net(tx) > 0 { GainIsCredit(tx); } else { NetIsConserved(tx); }
  }

  /** A joint transaction that spends 1 of ours and pays us 3 is shown as a gain of 3 although the net effect is 2. */
  lemma {:induction false} JointGainIsOverstated()
    ensures var tx := Tx(0, 0, false, true, [TxIn(Spendable, 1), TxIn(NotMine, 5)],
                         [TxOut(Spendable, 3, NoDestination)], "", "");
            Net(tx) == 2 && Total(Decompose(tx)) == 3
  {
    var tx := Tx(0, 0, false, true, [TxIn(Spendable, 1), TxIn(NotMine, 5)], [TxOut(Spendable, 3, NoDestination)], "",
                 "");
    assert InSum(tx, (m: Mine) => m.Spendable?, 1) == 1 && InSum(tx, (m: Mine) => m.WatchOnly(), 1) == 0;
    assert OutSum(tx, (o: TxOut) => o.mine.Spendable?, 0) == 0 && OutSum(tx, (o: TxOut) => o.mine.WatchOnly(), 0) == 0;
    assert OutSum(tx, Owned(), 0) == 0;
    GainIsCredit(tx);
  }

  // ---------------------------------------------------------------- what each row says

  function Ours(): Mine -> bool { (m: Mine) => !m.NotMine? }

  /** Sent to an address in the address book. */
  function Booked(): TxOut -> bool { (o: TxOut) => o.destination.Destination? && o.destination.inAddressBook }

  /** The wallet's debit is the value of all inputs that are ours. */
  lemma {:induction false} DebitIsOwnedValue(tx: Tx)
    ensures Debit(tx) == InSum(tx, Ours(), |tx.vin|)
  {
    OwnedInputsSplit(tx, |tx.vin|);
  }

  lemma {:induction false} OwnedInputsSplit(tx: Tx, n: nat)
    requires n <= |tx.vin|
    ensures InSum(tx, (m: Mine) => m.Spendable?, n) + InSum(tx, (m: Mine) => m.WatchOnly(), n) == InSum(tx, Ours(), n)
  {
    if n > 0 { OwnedInputsSplit(tx, n - 1); }
  }

  /** What the wallet gains: the owned outputs less the owned inputs. */
  function Gain(tx: Tx): int { OutSum(tx, Owned(), |tx.vout|) - InSum(tx, Ours(), |tx.vin|) }

  lemma {:induction false} NetIsGain(tx: Tx)
    requires !tx.coinbase
    ensures Net(tx) == Gain(tx)
  {
    DebitIsOwnedValue(tx);
    CreditIsOwnedValue(tx);
  }

  /** How many of the first `n` outputs satisfy `f`. */
  function Chosen(tx: Tx, f: TxOut -> bool, n: nat): nat
    requires n <= |tx.vout|
  {
    if n == 0 then 0 else Chosen(tx, f, n - 1) + if f(tx.vout[n - 1]) then 1 else 0
  }

  lemma {:induction false} ChosenBefore(tx: Tx, f: TxOut -> bool, i: nat, n: nat)
    requires i < n <= |tx.vout| && f(tx.vout[i])
    ensures Chosen(tx, f, i) < Chosen(tx, f, n)
    decreases n
  {
    if i < n - 1 { ChosenBefore(tx, f, i, n - 1); }
  }

  /** Row `r` says that output `out` was received: with the address if it is one of ours, as generated in a coinbase. */
  predicate SaysReceived(tx: Tx, out: TxOut, r: Record) {
    && r.time == tx.time && r.debit == 0 && r.credit == out.value
    && (r.watch <==> out.mine == WatchUnsolvable || out.mine == WatchSolvable)
    && (r.kind == Generated <==> tx.coinbase)
    && (match out.destination
        case NoDestination => r.address == tx.from && (tx.coinbase || r.kind == RecvFromOther)
        case Destination(address, mine, _) =>
          if mine then r.address == address && (tx.coinbase || r.kind == RecvWithAddress)
          else r.address == tx.from && (tx.coinbase || r.kind == RecvFromOther))
  }

  /** Row `r` says that output `out` was paid, together with `fee`: to its address if it has one. */
  predicate SaysPaid(tx: Tx, out: TxOut, fee: int, r: Record) {
    && r.time == tx.time && r.debit == -out.value - fee && r.credit == 0 && (r.watch <==> TouchesWatch(tx))
    && (match out.destination
        case NoDestination => r.kind == SendToOther && r.address == tx.to
        case Destination(address, _, _) => r.kind == SendToAddress && r.address == address)
  }

  /** Some input or output belongs to an address that is only watched. */
  predicate TouchesWatch(tx: Tx) {
    || (exists i :: 0 <= i < |tx.vin| && (tx.vin[i].mine == WatchUnsolvable || tx.vin[i].mine == WatchSolvable))
    || (exists i :: 0 <= i < |tx.vout| && (tx.vout[i].mine == WatchUnsolvable || tx.vout[i].mine == WatchSolvable))
  }

  lemma {:induction false} WatchIsWatch(tx: Tx)
    ensures InvolvesWatch(tx) <==> TouchesWatch(tx)
  {
    if i :| 0 <= i < |tx.vin| && (tx.vin[i].mine == WatchUnsolvable || tx.vin[i].mine == WatchSolvable) {
      assert tx.vin[i].mine.WatchOnly();
    } else if i :| 0 <= i < |tx.vout| && (tx.vout[i].mine == WatchUnsolvable || tx.vout[i].mine == WatchSolvable) {
      assert tx.vout[i].mine.WatchOnly();
    }
  }

  lemma {:induction false} ReceivedRows(tx: Tx, n: nat)
    requires n <= |tx.vout|
    ensures |Received(tx, n)| == Chosen(tx, Owned(), n)
    ensures forall i :: 0 <= i < n && Owned()(tx.vout[i]) ==>
              Chosen(tx, Owned(), i) < |Received(tx, n)|
              && SaysReceived(tx, tx.vout[i], Received(tx, n)[Chosen(tx, Owned(), i)])
  {
    if n > 0 {
      ReceivedRows(tx, n - 1);
      forall i | 0 <= i < n - 1 && Owned()(tx.vout[i]) ensures Chosen(tx, Owned(), i) < Chosen(tx, Owned(), n - 1) {
        ChosenBefore(tx, Owned(), i, n - 1);
      }
    }
  }

  /** A gain, or a coinbase, has one row for each owned output, in their order. */
  lemma {:induction false} GainHasARowPerOwnedOutput(tx: Tx)
    requires tx.coinbase || Gain(tx) > 0
    ensures |Decompose(tx)| == Chosen(tx, Owned(), |tx.vout|)
    ensures forall i :: 0 <= i < |tx.vout| && Owned()(tx.vout[i]) ==>
              Chosen(tx, Owned(), i) < |Decompose(tx)|
              && SaysReceived(tx, tx.vout[i], Decompose(tx)[Chosen(tx, Owned(), i)])
  {
    if !tx.coinbase { NetIsGain(tx); }
    ReceivedRows(tx, |tx.vout|);
  }

  /** The fee, where it is positive: what is spent of ours less all that is paid. */
  function PaidFee(tx: Tx): int { InSum(tx, Ours(), |tx.vin|) - OutSum(tx, (o: TxOut) => true, |tx.vout|) }

  lemma {:induction false} SentRows(tx: Tx, n: nat)
    requires n <= |tx.vout|
    ensures |Sent(tx, n)| == Chosen(tx, Foreign(), n)
    ensures forall i :: 0 <= i < n && Foreign()(tx.vout[i]) ==>
              var k := Chosen(tx, Foreign(), i);
              k < |Sent(tx, n)|
              && SaysPaid(tx, tx.vout[i], if k == 0 && PaidFee(tx) > 0 then PaidFee(tx) else 0, Sent(tx, n)[k])
  {
    WatchIsWatch(tx);
    DebitIsOwnedValue(tx);
    if n > 0 {
      SentRows(tx, n - 1);
      forall i | 0 <= i < n - 1 && Foreign()(tx.vout[i])
        ensures Chosen(tx, Foreign(), i) < Chosen(tx, Foreign(), n - 1)
      {
        ChosenBefore(tx, Foreign(), i, n - 1);
      }
    }
  }

  /** When everything spent is ours and somebody else is paid, there is one row for each foreign output, in their order,
      and only the first of them carries the fee. */
  lemma {:induction false} FeeIsChargedOnceToTheFirstRecipient(tx: Tx)
    requires !tx.coinbase && Gain(tx) <= 0 && AllFromMe(tx) && !AllToMe(tx)
    ensures |Decompose(tx)| == Chosen(tx, Foreign(), |tx.vout|)
    ensures forall i :: 0 <= i < |tx.vout| && Foreign()(tx.vout[i]) ==>
              var k := Chosen(tx, Foreign(), i);
              k < |Decompose(tx)|
              && SaysPaid(tx, tx.vout[i], if k == 0 && PaidFee(tx) > 0 then PaidFee(tx) else 0, Decompose(tx)[k])
  {
    NetIsGain(tx);
    SentRows(tx, |tx.vout|);
  }

  lemma {:induction false} KeptIsBooked(tx: Tx, n: nat)
    requires n <= |tx.vout| && AllToMe(tx)
    ensures OutSum(tx, Owned(), n) - OutSum(tx, (o: TxOut) => o.Change(), n) == OutSum(tx, Booked(), n)
    ensures OutSum(tx, Owned(), n) == OutSum(tx, (o: TxOut) => true, n)
  {
    if n > 0 { KeptIsBooked(tx, n - 1); }
  }

  /** A payment to ourselves is one row: it credits what went to addresses in the address book, and debits that and the
      fee, so that change does not show. */
  lemma {:induction false} SelfPaymentHidesChange(tx: Tx)
    requires !tx.coinbase && Gain(tx) <= 0 && AllFromMe(tx) && AllToMe(tx)
    ensures |Decompose(tx)| == 1
    ensures var r := Decompose(tx)[0];
            && r.kind == SendToSelf && r.address == "" && r.time == tx.time && (r.watch <==> TouchesWatch(tx))
            && r.credit == OutSum(tx, Booked(), |tx.vout|) && r.debit == -r.credit - PaidFee(tx)
  {
    NetIsGain(tx);
    WatchIsWatch(tx);
    DebitIsOwnedValue(tx);
    CreditIsOwnedValue(tx);
    KeptIsBooked(tx, |tx.vout|);
  }

  /** Any other transaction is one row with the net effect and nothing else. */
  lemma {:induction false} MixedIsOneRow(tx: Tx)
    requires !tx.coinbase && Gain(tx) <= 0 && !AllFromMe(tx)
    ensures |Decompose(tx)| == 1
    ensures var r := Decompose(tx)[0];
            && r.kind == Other && r.address == "" && r.time == tx.time && (r.watch <==> TouchesWatch(tx))
            && r.debit == Gain(tx) && r.credit == 0
  {
    NetIsGain(tx);
    WatchIsWatch(tx);
  }

  lemma {:induction false} PrefixRowsKeyed(tx: Tx, n: nat)
    requires n <= |tx.vout|
    ensures forall k :: 0 <= k < |Received(tx, n)| ==> Received(tx, n)[k].hash == tx.hash && Received(tx, n)[k].idx == k
    ensures forall k :: 0 <= k < |Sent(tx, n)| ==> Sent(tx, n)[k].hash == tx.hash && Sent(tx, n)[k].idx == k
  {
    if n > 0 { PrefixRowsKeyed(tx, n - 1); }
  }

  /** Every row carries the transaction's hash, and its idx is its position: (hash, idx) identifies a row. */
  lemma {:induction false} RowsAreKeyed(tx: Tx)
    ensures forall k :: 0 <= k < |Decompose(tx)| ==> Decompose(tx)[k].hash == tx.hash && Decompose(tx)[k].idx == k
  {
    PrefixRowsKeyed(tx, |tx.vout|);
  }
}
