/**
 The list of outputs in the answers to AddressTxs and AddressUnspentOutputs: for every delivered transaction that is in
 the table, its rows in the table.
 */
module BitcoreListing {
  import opened BitcoreSearch
  import opened Options
  import opened Sequences
  import opened BitcoreCoinsAnswer

  /** How often a transaction was delivered. */
  function Deliveries(answer: seq<Answer>, p: Pos): nat {
    if answer == [] then 0 else Deliveries(answer[..|answer| - 1], p) + if answer[|answer| - 1].pos == p then 1 else 0
  }

  lemma {:induction false} NoDelivery(answer: seq<Answer>, p: Pos)
    requires forall j :: 0 <= j < |answer| ==> answer[j].pos != p
    ensures Deliveries(answer, p) == 0
  {
    if answer != [] { NoDelivery(answer[..|answer| - 1], p); }
  }

  lemma {:induction false} SomeDelivery(answer: seq<Answer>, p: Pos, j: nat)
    requires j < |answer| && answer[j].pos == p
    ensures Deliveries(answer, p) >= 1
  {
    if j < |answer| - 1 { SomeDelivery(answer[..|answer| - 1], p, j); }
  }

  /** The row is one that the answer shows; the unspent outputs are those marked -2. */
  predicate Shows(unspentOnly: bool, txRefs: TxRefs, u: Use) {
    u.pos in txRefs && u.index in txRefs[u.pos] && (!unspentOnly || txRefs[u.pos][u.index].height == UNSPENT_HEIGHT)
  }

  /** How often an output is listed: once per delivery of its transaction. */
  function TimesListed(unspentOnly: bool, txRefs: TxRefs, answer: seq<Answer>, u: Use): nat {
    if Shows(unspentOnly, txRefs, u) then Deliveries(answer, u.pos) else 0
  }

  /** What is shown of an output; there is no value without the data of the transaction. */
  datatype ListedOutput = ListedOutput(use: Use, mintTxid: Option<Id>, value: Option<nat>, spentHeight: int,
                                       spentTxid: Option<Id>)

  function OutputRow(txRefs: TxRefs, answer: seq<Answer>, a: Answer, i: nat): ListedOutput
    requires a.pos in txRefs && i in txRefs[a.pos]
  {
    var row := txRefs[a.pos][i];
    var spender := FirstAt(answer, row);
    ListedOutput(Use(a.pos, i), a.txid,
                 if a.full.Some? && i < |a.full.value.outs| then Some(a.full.value.outs[i]) else None,
                 row.height,
                 if spender.Some? then spender.value.txid else None)
  }

  function UsesIn(listed: seq<ListedOutput>): seq<Use> { seq(|listed|, k requires 0 <= k < |listed| => listed[k].use) }

  /** The row is what the table and some delivery of its transaction say. */
  predicate FromDelivery(unspentOnly: bool, txRefs: TxRefs, answer: seq<Answer>, a: Answer, r: ListedOutput) {
    r.use.pos == a.pos && Shows(unspentOnly, txRefs, r.use) && r == OutputRow(txRefs, answer, a, r.use.index)
  }

  ghost predicate FromSome(unspentOnly: bool, txRefs: TxRefs, answer: seq<Answer>, r: ListedOutput) {
    exists a :: a in answer && FromDelivery(unspentOnly, txRefs, answer, a, r)
  }

  /** The loop over the delivered transactions for the spender of an output. */
  method FindSpender(answer: seq<Answer>, row: Pos) returns (spender: Option<Answer>)
    ensures spender == FirstAt(answer, row)
  {
    for k := 0 to |answer|
      invariant FirstAt(answer[k..], row) == FirstAt(answer, row)
    {
      assert answer[k..][0] == answer[k] && answer[k..][1..] == answer[k + 1..];
      if answer[k].pos == row { return Some(answer[k]); }
    }
    spender := None;
  }

  // ---------------------------------------------------------------- the list in its order

  /** What a delivery shows of the outputs below index `n`: one row per shown output, by ascending index. */
  function RowsBelow(unspentOnly: bool, txRefs: TxRefs, answer: seq<Answer>, a: Answer, n: nat): seq<ListedOutput>
    requires a.pos in txRefs
  {
    if n == 0 then []
    else
      RowsBelow(unspentOnly, txRefs, answer, a, n - 1)
      + if Shows(unspentOnly, txRefs, Use(a.pos, n - 1)) then [OutputRow(txRefs, answer, a, n - 1)] else []
  }

  /** All indices are below this. */
  ghost function Bound(keys: set<nat>): (n: nat)
    ensures forall i :: i in keys ==> i < n
  {
    if keys == {} then 0
    else
      var i :| i in keys;
      var n := Bound(keys - {i});
      assert forall j :: j in keys ==> j == i || j in keys - {i};
      if i < n then n else i + 1
  }

  /** All that a delivery shows: nothing, if the transaction is not in the table. */
  ghost function RowsOfDelivery(unspentOnly: bool, txRefs: TxRefs, answer: seq<Answer>, a: Answer): seq<ListedOutput> {
    if a.pos in txRefs then RowsBelow(unspentOnly, txRefs, answer, a, Bound(txRefs[a.pos].Keys)) else []
  }

  /** The list for the first `n` deliveries: per delivery of a transaction of the table, its rows by ascending index. */
  ghost function Listing(unspentOnly: bool, txRefs: TxRefs, answer: seq<Answer>, n: nat): seq<ListedOutput>
    requires n <= |answer|
  {
    if n == 0 then []
    else
      Listing(unspentOnly, txRefs, answer, n - 1) + RowsOfDelivery(unspentOnly, txRefs, answer, answer[n - 1])
  }

  /** Indices that are not in the table add nothing. */
  lemma {:induction false} NoRowsBetween(unspentOnly: bool, txRefs: TxRefs, answer: seq<Answer>, a: Answer, m: nat,
                                         n: nat)
    requires a.pos in txRefs && m <= n && forall i :: m <= i < n ==> i !in txRefs[a.pos]
    ensures RowsBelow(unspentOnly, txRefs, answer, a, n) == RowsBelow(unspentOnly, txRefs, answer, a, m)
    decreases n
  {
    if m < n {
      NoRowsBetween(unspentOnly, txRefs, answer, a, m, n - 1);
      JoinEmpty(RowsBelow(unspentOnly, txRefs, answer, a, n - 1));
    }
  }

  lemma {:induction false} CountJoined(a: seq<ListedOutput>, b: seq<ListedOutput>, u: Use)
    ensures multiset(UsesIn(a + b))[u] == multiset(UsesIn(a))[u] + multiset(UsesIn(b))[u]
  {
    assert UsesIn(a + b) == UsesIn(a) + UsesIn(b);
  }

  lemma {:induction false} RowsAreCounted(unspentOnly: bool, txRefs: TxRefs, answer: seq<Answer>, a: Answer, n: nat,
                                          u: Use)
    requires a.pos in txRefs
    ensures multiset(UsesIn(RowsBelow(unspentOnly, txRefs, answer, a, n)))[u] ==
            if u.pos == a.pos && u.index < n && Shows(unspentOnly, txRefs, u) then 1 else 0
  {
    if n > 0 {
      RowsAreCounted(unspentOnly, txRefs, answer, a, n - 1, u);
      var before := RowsBelow(unspentOnly, txRefs, answer, a, n - 1);
      if Shows(unspentOnly, txRefs, Use(a.pos, n - 1)) {
        var row := OutputRow(txRefs, answer, a, n - 1);
        CountJoined(before, [row], u);
        assert UsesIn([row]) == [Use(a.pos, n - 1)];
      } else {
        JoinEmpty(before);
      }
    }
  }

  /** One more delivery of the transaction lists the output once more, if it is shown at all. */
  lemma {:induction false} ListedOnceMore(unspentOnly: bool, txRefs: TxRefs, answer: seq<Answer>, n: nat, u: Use)
    requires 0 < n <= |answer|
    ensures TimesListed(unspentOnly, txRefs, answer[..n], u) ==
            TimesListed(unspentOnly, txRefs, answer[..n - 1], u)
            + if answer[n - 1].pos == u.pos && Shows(unspentOnly, txRefs, u) then 1 else 0
  {
    TakeSnoc(answer, n);
  }

  lemma {:induction false} DeliveryIsCounted(unspentOnly: bool, txRefs: TxRefs, answer: seq<Answer>, a: Answer, u: Use)
    ensures multiset(UsesIn(RowsOfDelivery(unspentOnly, txRefs, answer, a)))[u] ==
            if a.pos == u.pos && Shows(unspentOnly, txRefs, u) then 1 else 0
  {
    if a.pos in txRefs { RowsAreCounted(unspentOnly, txRefs, answer, a, Bound(txRefs[a.pos].Keys), u); }
  }

  /** An output is listed as often as its transaction was delivered. */
  lemma {:induction false} ListingIsCounted(unspentOnly: bool, txRefs: TxRefs, answer: seq<Answer>, n: nat, u: Use)
    requires n <= |answer|
    ensures multiset(UsesIn(Listing(unspentOnly, txRefs, answer, n)))[u] ==
            TimesListed(unspentOnly, txRefs, answer[..n], u)
  {
    if n > 0 {
      ListingIsCounted(unspentOnly, txRefs, answer, n - 1, u);
      ListedOnceMore(unspentOnly, txRefs, answer, n, u);
      DeliveryIsCounted(unspentOnly, txRefs, answer, answer[n - 1], u);
      CountJoined(Listing(unspentOnly, txRefs, answer, n - 1),
                  RowsOfDelivery(unspentOnly, txRefs, answer, answer[n - 1]), u);
    }
  }

  lemma {:induction false} RowsComeFrom(unspentOnly: bool, txRefs: TxRefs, answer: seq<Answer>, a: Answer, n: nat)
    requires a.pos in txRefs
    ensures forall r :: r in RowsBelow(unspentOnly, txRefs, answer, a, n) ==>
              FromDelivery(unspentOnly, txRefs, answer, a, r) && r.use.index < n
  {
    if n > 0 { RowsComeFrom(unspentOnly, txRefs, answer, a, n - 1); }
  }

  lemma {:induction false} ListingComesFrom(unspentOnly: bool, txRefs: TxRefs, answer: seq<Answer>, n: nat)
    requires n <= |answer|
    ensures forall r :: r in Listing(unspentOnly, txRefs, answer, n) ==> FromSome(unspentOnly, txRefs, answer, r)
  {
    if n > 0 {
      var a := answer[n - 1];
      ListingComesFrom(unspentOnly, txRefs, answer, n - 1);
      if a.pos in txRefs {
        RowsComeFrom(unspentOnly, txRefs, answer, a, Bound(txRefs[a.pos].Keys));
        assert a in answer;
      }
    }
  }

  method Least(keys: set<nat>) returns (least: nat)
    requires keys != {}
    ensures least in keys && forall i :: i in keys ==> least <= i
  {
    ghost var some :| some in keys;
    least := 0;
    while least !in keys
      invariant forall i :: i in keys ==> least <= i
      decreases some - least
    {
      least := least + 1;
    }
  }

  /** The loop over the rows of a transaction, which a sorted map iterates by ascending index. */
  method ListRows(unspentOnly: bool, txRefs: TxRefs, answer: seq<Answer>, a: Answer) returns (listed: seq<ListedOutput>)
    requires a.pos in txRefs
    ensures listed == RowsBelow(unspentOnly, txRefs, answer, a, Bound(txRefs[a.pos].Keys))
  {
    listed := [];
    var keys := txRefs[a.pos].Keys;
    ghost var done: nat := 0;
    while keys != {}
      invariant keys <= txRefs[a.pos].Keys && forall i :: i in txRefs[a.pos] ==> (i in keys <==> done <= i)
      invariant listed == RowsBelow(unspentOnly, txRefs, answer, a, done)
      decreases |keys|
    {
      var i := Least(keys);
      NoRowsBetween(unspentOnly, txRefs, answer, a, done, i);
      keys := keys - {i};
      done := i + 1;
      var row := txRefs[a.pos][i];
      if unspentOnly && row.height != UNSPENT_HEIGHT {
        JoinEmpty(listed);
        continue;
      }
      var o := ListedOutput(Use(a.pos, i), a.txid, None, row.height, None);
      if a.full.Some? && i < |a.full.value.outs| { o := o.(value := Some(a.full.value.outs[i])); }
      var spender := FindSpender(answer, row);
      if spender.Some? { o := o.(spentTxid := spender.value.txid); }
      listed := listed + [o];
    }
    ghost var n := Bound(txRefs[a.pos].Keys);
    if done <= n {
      NoRowsBetween(unspentOnly, txRefs, answer, a, done, n);
    } else {
      NoRowsBetween(unspentOnly, txRefs, answer, a, n, done);
    }
  }

  /** The answers to AddressTxs and AddressUnspentOutputs. */
  method ListOutputs(unspentOnly: bool, txRefs: TxRefs, answer: seq<Answer>) returns (listed: seq<ListedOutput>)
    ensures listed == Listing(unspentOnly, txRefs, answer, |answer|)
    ensures forall u :: multiset(UsesIn(listed))[u] == TimesListed(unspentOnly, txRefs, answer, u)
    ensures forall k :: 0 <= k < |listed| ==> FromSome(unspentOnly, txRefs, answer, listed[k])
  {
    listed := [];
    for j := 0 to |answer|
      invariant listed == Listing(unspentOnly, txRefs, answer, j)
    {
      if answer[j].pos in txRefs {
        var rows := ListRows(unspentOnly, txRefs, answer, answer[j]);
        listed := listed + rows;
      } else {
        JoinEmpty(listed);
      }
    }
    assert answer[..|answer|] == answer;
    forall u { ListingIsCounted(unspentOnly, txRefs, answer, |answer|, u); }
    ListingComesFrom(unspentOnly, txRefs, answer, |answer|);
  }
}
