/**
 The cached row list of the transaction view (TransactionTablePriv in hub-qt/transactiontablemodel.cpp):
 a full rebuild from the wallet, and an incremental update that finds a transaction's rows by two
 binary searches.
 */
module TransactionTable {
  import opened Sequences
  import opened TransactionRecords

  datatype ChangeType = New | Updated | Deleted

  datatype Notification = Notification(hash: Hash, status: ChangeType, show: bool)

  /** What beginInsertRows / beginRemoveRows announce to the views. */
  datatype RowsSignal = NoSignal | InsertRows(first: nat, last: nat) | RemoveRows(first: nat, last: nat)

  /** The transactions present in the wallet, each with the outcome of showTransaction. */
  type Wallet = map<Hash, bool>

  /** The rows a transaction decomposes into. */
  type Rows = Hash -> seq<Record>

  predicate Shown(wallet: Wallet, h: Hash) { h in wallet && wallet[h] }

  ghost predicate WellKeyed(rows: Rows) {
    forall h, k :: 0 <= k < |rows(h)| ==> rows(h)[k].hash == h && rows(h)[k].idx == k
  }

  function RowsOf(book: Hash -> Tx): Rows { (h: Hash) => Decompose(book(h)) }

  lemma {:induction false} DecompositionIsWellKeyed(book: Hash -> Tx)
    requires forall h :: book(h).hash == h
    ensures WellKeyed(RowsOf(book))
  {
    forall h { RowsAreKeyed(book(h)); }
  }

  // ---------------------------------------------------------------- row lists

  ghost predicate Sorted(c: seq<Record>) { forall i, j :: 0 <= i < j < |c| ==> c[i].hash <= c[j].hash }

  /** The rows of one transaction, in list order. */
  function Block(c: seq<Record>, h: Hash): seq<Record> {
    if c == [] then [] else (if c[0].hash == h then [c[0]] else []) + Block(c[1..], h)
  }

  function Wanted(rows: Rows, wallet: Wallet, h: Hash): seq<Record> {
    if Shown(wallet, h) then rows(h) else []
  }

  /** Per transaction, the list holds exactly what should be displayed, whatever the order of the transactions. */
  ghost predicate Agrees(rows: Rows, wallet: Wallet, c: seq<Record>) {
    forall h :: Block(c, h) == Wanted(rows, wallet, h)
  }

  lemma {:induction false} BlockConcat(a: seq<Record>, b: seq<Record>, h: Hash)
    ensures Block(a + b, h) == Block(a, h) + Block(b, h)
  {
    if a == [] {
      assert a + b == b;
      assert Block(a, h) + Block(b, h) == Block(b, h);
    } else {
      var tail := a[1..];
      var head := if a[0].hash == h then [a[0]] else [];
      assert (a + b)[1..] == tail + b && (a + b)[0] == a[0];
      BlockConcat(tail, b, h);
      assert Block(a + b, h) == head + Block(tail + b, h);
      JoinAssociates(head, Block(tail, h), Block(b, h));
    }
  }

  lemma {:induction false} BlockConcat3(a: seq<Record>, b: seq<Record>, c: seq<Record>, h: Hash)
    ensures Block(a + b + c, h) == Block(a, h) + Block(b, h) + Block(c, h)
  {
    BlockConcat(a + b, c, h);
    BlockConcat(a, b, h);
  }

  lemma {:induction false} BlockOfUniform(c: seq<Record>, h: Hash, g: Hash)
    requires forall k :: 0 <= k < |c| ==> c[k].hash == g
    ensures Block(c, h) == if g == h then c else []
  {
    if c != [] { BlockOfUniform(c[1..], h, g); }
  }

  lemma {:induction false} BlockEmpty(c: seq<Record>, h: Hash)
    ensures Block(c, h) == [] <==> forall k :: 0 <= k < |c| ==> c[k].hash != h
  {
    if c != [] {
      BlockEmpty(c[1..], h);
      assert forall k :: 1 <= k < |c| ==> c[k] == c[1..][k - 1];
      if Block(c, h) == [] {
        forall k | 0 <= k < |c| ensures c[k].hash != h {
          if k > 0 { assert c[1..][k - 1].hash != h; }
        }
      } else if c[0].hash != h {
        var k :| 0 <= k < |c[1..]| && c[1..][k].hash == h;
        assert c[k + 1].hash == h;
      }
    }
  }

  lemma {:induction false} BlockTail(c: seq<Record>, g: Hash)
    requires c != []
    ensures Block(c[1..], g) == if c[0].hash == g then Block(c, g)[1..] else Block(c, g)
  {
  }

  /** A sorted list is determined by its blocks. */
  lemma {:induction false} SortedListIsItsBlocks(a: seq<Record>, b: seq<Record>)
    requires Sorted(a) && Sorted(b)
    requires forall h :: Block(a, h) == Block(b, h)
    ensures a == b
  {
    if a == [] {
      assert b != [] ==> Block(b, b[0].hash) != Block(a, b[0].hash);
    } else {
      assert Block(b, a[0].hash) == Block(a, a[0].hash) != [];
      BlockEmpty(b, a[0].hash);
      var k :| 0 <= k < |b| && b[k].hash == a[0].hash;
      assert Block(a, b[0].hash) == Block(b, b[0].hash) != [];
      BlockEmpty(a, b[0].hash);
      var m :| 0 <= m < |a| && a[m].hash == b[0].hash;
      assert a[0].hash <= a[m].hash && b[0].hash <= b[k].hash;
      var h := a[0].hash;
      assert b[0].hash == h;
      assert a[0] == Block(a, h)[0] == Block(b, h)[0] == b[0];
      forall g ensures Block(a[1..], g) == Block(b[1..], g) {
        BlockTail(a, g);
        BlockTail(b, g);
        assert Block(a, g) == Block(b, g);
      }
      SortedListIsItsBlocks(a[1..], b[1..]);
    }
  }

  // ---------------------------------------------------------------- binary searches

  /** qLowerBound on `n` rows from `begin`. */
  function LowerBound(c: seq<Record>, h: Hash, begin: nat, n: nat): (r: nat)
    requires begin + n <= |c|
    ensures begin <= r <= begin + n
    decreases n
  {
    if n == 0 then begin
    else if c[begin + n / 2].hash < h then LowerBound(c, h, begin + n / 2 + 1, n - n / 2 - 1)
    else LowerBound(c, h, begin, n / 2)
  }

  /** qUpperBound on `n` rows from `begin`. */
  function UpperBound(c: seq<Record>, h: Hash, begin: nat, n: nat): (r: nat)
    requires begin + n <= |c|
    ensures begin <= r <= begin + n
    decreases n
  {
    if n == 0 then begin
    else if h < c[begin + n / 2].hash then UpperBound(c, h, begin, n / 2)
    else UpperBound(c, h, begin + n / 2 + 1, n - n / 2 - 1)
  }

  /** On any list, sorted or not, the lower search never ends after the upper one. */
  lemma {:induction false} BoundsAreOrdered(c: seq<Record>, h: Hash, begin: nat, n: nat)
    requires begin + n <= |c|
    ensures LowerBound(c, h, begin, n) <= UpperBound(c, h, begin, n)
    decreases n
  {
    if n > 0 {
      if c[begin + n / 2].hash < h {
        BoundsAreOrdered(c, h, begin + n / 2 + 1, n - n / 2 - 1);
      } else if h < c[begin + n / 2].hash {
        BoundsAreOrdered(c, h, begin, n / 2);
      }
    }
  }

  lemma {:induction false} SortedLowerBound(c: seq<Record>, h: Hash, begin: nat, n: nat)
    requires Sorted(c) && begin + n <= |c|
    ensures forall k :: begin <= k < LowerBound(c, h, begin, n) ==> c[k].hash < h
    ensures forall k :: LowerBound(c, h, begin, n) <= k < begin + n ==> h <= c[k].hash
    decreases n
  {
    if n > 0 {
      if c[begin + n / 2].hash < h {
        SortedLowerBound(c, h, begin + n / 2 + 1, n - n / 2 - 1);
      } else {
        SortedLowerBound(c, h, begin, n / 2);
      }
    }
  }

  lemma {:induction false} SortedUpperBound(c: seq<Record>, h: Hash, begin: nat, n: nat)
    requires Sorted(c) && begin + n <= |c|
    ensures forall k :: begin <= k < UpperBound(c, h, begin, n) ==> c[k].hash <= h
    ensures forall k :: UpperBound(c, h, begin, n) <= k < begin + n ==> h < c[k].hash
    decreases n
  {
    if n > 0 {
      if h < c[begin + n / 2].hash {
        SortedUpperBound(c, h, begin, n / 2);
      } else {
        SortedUpperBound(c, h, begin + n / 2 + 1, n - n / 2 - 1);
      }
    }
  }

  lemma {:induction false} SortedBounds(c: seq<Record>, h: Hash)
    requires Sorted(c)
    ensures forall k :: 0 <= k < LowerBound(c, h, 0, |c|) ==> c[k].hash < h
    ensures forall k :: LowerBound(c, h, 0, |c|) <= k < |c| ==> h <= c[k].hash
    ensures forall k :: 0 <= k < UpperBound(c, h, 0, |c|) ==> c[k].hash <= h
    ensures forall k :: UpperBound(c, h, 0, |c|) <= k < |c| ==> h < c[k].hash
  {
    SortedLowerBound(c, h, 0, |c|);
    SortedUpperBound(c, h, 0, |c|);
  }

  lemma {:induction false} BlockOfSlice(c: seq<Record>, lo: nat, up: nat, h: Hash)
    requires lo <= up <= |c|
    requires forall k :: lo <= k < up ==> c[k].hash != h
    ensures Block(c[lo..up], h) == []
  {
    BlockEmpty(c[lo..up], h);
  }

  lemma {:induction false} EmptyAround(a: seq<Record>, b: seq<Record>, c: seq<Record>)
    requires a == [] == c
    ensures a + b + c == b
  {
  }

  lemma {:induction false} BlockOfRange(c: seq<Record>, lo: nat, up: nat, h: Hash)
    requires lo <= up <= |c|
    requires forall k :: 0 <= k < lo ==> c[k].hash != h
    requires forall k :: lo <= k < up ==> c[k].hash == h
    requires forall k :: up <= k < |c| ==> c[k].hash != h
    ensures Block(c, h) == c[lo..up]
    ensures Block(c[..lo], h) == [] == Block(c[up..], h)
  {
    var a, b, d := c[..lo], c[lo..up], c[up..];
    assert Block(a, h) == [] by { BlockOfSlice(c, 0, lo, h); }
    assert Block(d, h) == [] by {
      assert d == c[up..|c|];
      BlockOfSlice(c, up, |c|, h);
    }
    assert Block(b, h) == b by { BlockOfUniform(b, h, h); }
    assert Block(c, h) == Block(a, h) + Block(b, h) + Block(d, h) by {
      assert c == a + b + d;
      BlockConcat3(a, b, d, h);
    }
    EmptyAround(Block(a, h), b, Block(d, h));
  }

  /** In a sorted list the two searches delimit exactly the rows of the transaction. */
  lemma {:induction false} BoundsDelimitTheBlock(c: seq<Record>, h: Hash)
    requires Sorted(c)
    ensures LowerBound(c, h, 0, |c|) <= UpperBound(c, h, 0, |c|)
    ensures Block(c, h) == c[LowerBound(c, h, 0, |c|)..UpperBound(c, h, 0, |c|)]
    ensures Block(c[..LowerBound(c, h, 0, |c|)], h) == [] == Block(c[UpperBound(c, h, 0, |c|)..], h)
  {
    BoundsAreOrdered(c, h, 0, |c|);
    SortedBounds(c, h);
    var lo, up := LowerBound(c, h, 0, |c|), UpperBound(c, h, 0, |c|);
    BlockOfRange(c, lo, up, h);
  }

  /** Every row lies between the bounds that a search for its own hash computes. */
  ghost predicate EveryRowIsFound(c: seq<Record>) {
    forall i :: 0 <= i < |c| ==> LowerBound(c, c[i].hash, 0, |c|) <= i < UpperBound(c, c[i].hash, 0, |c|)
  }

  /** A row that the searches over a range find, except that a row at the least (greatest) value of the range need not
      be found by the lower (upper) search. */
  ghost predicate FoundRow(c: seq<Record>, begin: nat, n: nat, least: int, greatest: int, i: int)
    requires begin <= i < begin + n <= |c|
  {
    && least <= c[i].hash <= greatest
    && (c[i].hash == least || LowerBound(c, c[i].hash, begin, n) <= i)
    && (c[i].hash == greatest || i < UpperBound(c, c[i].hash, begin, n))
  }

  ghost predicate FoundWithin(c: seq<Record>, begin: nat, n: nat, least: int, greatest: int)
    requires begin + n <= |c|
  {
    forall i :: begin <= i < begin + n ==> FoundRow(c, begin, n, least, greatest, i)
  }

  /** The row at offset `half` lies between the rows before and after it. */
  ghost predicate Separates(c: seq<Record>, begin: nat, n: nat, half: nat)
    requires half < n && begin + n <= |c|
  {
    && (forall i :: begin <= i < begin + half ==> c[i].hash <= c[begin + half].hash)
    && (forall i :: begin + half < i < begin + n ==> c[begin + half].hash <= c[i].hash)
  }

  lemma {:induction false} MiddleSeparates(c: seq<Record>, begin: nat, n: nat, least: int, greatest: int)
    requires n > 0 && begin + n <= |c| && FoundWithin(c, begin, n, least, greatest)
    ensures Separates(c, begin, n, n / 2)
  {
    var mid := begin + n / 2;
    assert FoundRow(c, begin, n, least, greatest, mid);
    forall i | begin <= i < mid ensures c[i].hash <= c[mid].hash { assert FoundRow(c, begin, n, least, greatest, i); }
    forall i | mid < i < begin + n ensures c[mid].hash <= c[i].hash {
      assert FoundRow(c, begin, n, least, greatest, i);
    }
  }

  lemma {:induction false} LowerHalfSearches(c: seq<Record>, h: Hash, begin: nat, n: nat)
    requires n > 0 && begin + n <= |c| && h <= c[begin + n / 2].hash
    ensures LowerBound(c, h, begin, n) == LowerBound(c, h, begin, n / 2)
    ensures h < c[begin + n / 2].hash ==> UpperBound(c, h, begin, n) == UpperBound(c, h, begin, n / 2)
  {
  }

  lemma {:induction false} UpperHalfSearches(c: seq<Record>, h: Hash, begin: nat, n: nat)
    requires n > 0 && begin + n <= |c| && c[begin + n / 2].hash <= h
    ensures UpperBound(c, h, begin, n) == UpperBound(c, h, begin + n / 2 + 1, n - n / 2 - 1)
    ensures c[begin + n / 2].hash < h ==>
            LowerBound(c, h, begin, n) == LowerBound(c, h, begin + n / 2 + 1, n - n / 2 - 1)
  {
  }

  lemma {:induction false} FoundBelow(c: seq<Record>, begin: nat, n: nat, least: int, greatest: int, i: nat)
    requires begin + n <= |c| && FoundWithin(c, begin, n, least, greatest)
    requires begin <= i < begin + n / 2 && c[i].hash <= c[begin + n / 2].hash
    ensures FoundRow(c, begin, n / 2, least, c[begin + n / 2].hash, i)
  {
    assert FoundRow(c, begin, n, least, greatest, begin + n / 2);
    assert FoundRow(c, begin, n, least, greatest, i);
    LowerHalfSearches(c, c[i].hash, begin, n);
  }

  lemma {:induction false} FoundAbove(c: seq<Record>, begin: nat, n: nat, least: int, greatest: int, i: nat)
    requires n > 0 && begin + n <= |c| && FoundWithin(c, begin, n, least, greatest)
    requires begin + n / 2 < i < begin + n && c[begin + n / 2].hash <= c[i].hash
    ensures FoundRow(c, begin + n / 2 + 1, n - n / 2 - 1, c[begin + n / 2].hash, greatest, i)
  {
    assert FoundRow(c, begin, n, least, greatest, begin + n / 2);
    assert FoundRow(c, begin, n, least, greatest, i);
    UpperHalfSearches(c, c[i].hash, begin, n);
  }

  lemma {:induction false} FoundInHalves(c: seq<Record>, begin: nat, n: nat, half: nat, least: int, greatest: int)
    returns (middle: int)
    requires half == n / 2 < n && begin + n <= |c| && FoundWithin(c, begin, n, least, greatest)
    ensures Separates(c, begin, n, half)
    ensures FoundWithin(c, begin, half, least, middle)
    ensures FoundWithin(c, begin + half + 1, n - half - 1, middle, greatest)
  {
    MiddleSeparates(c, begin, n, least, greatest);
    middle := c[begin + half].hash;
    forall i | begin <= i < begin + half ensures FoundRow(c, begin, half, least, middle, i) {
      FoundBelow(c, begin, n, least, greatest, i);
    }
    var b, m := begin + half + 1, n - half - 1;
    forall i | b <= i < b + m ensures FoundRow(c, b, m, middle, greatest, i) {
      FoundAbove(c, begin, n, least, greatest, i);
    }
  }

  ghost predicate SortedRange(c: seq<Record>, begin: nat, n: nat)
    requires begin + n <= |c|
  {
    forall i, j :: begin <= i < j < begin + n ==> c[i].hash <= c[j].hash
  }

  lemma {:induction false} SortedAround(c: seq<Record>, begin: nat, n: nat, half: nat)
    requires half < n && begin + n <= |c|
    requires SortedRange(c, begin, half) && SortedRange(c, begin + half + 1, n - half - 1)
    requires Separates(c, begin, n, half)
    ensures SortedRange(c, begin, n)
  {
  }

  lemma {:induction false} FoundWithinIsSorted(c: seq<Record>, begin: nat, n: nat, least: int, greatest: int)
    requires begin + n <= |c| && FoundWithin(c, begin, n, least, greatest)
    ensures SortedRange(c, begin, n)
    decreases n
  {
    if n > 0 {
      var half := n / 2;
      var middle := FoundInHalves(c, begin, n, half, least, greatest);
      FoundWithinIsSorted(c, begin, half, least, middle);
      FoundWithinIsSorted(c, begin + half + 1, n - half - 1, middle, greatest);
      SortedAround(c, begin, n, half);
    }
  }

  function Greatest(c: seq<Record>): (m: int)
    ensures forall i :: 0 <= i < |c| ==> c[i].hash < m
  {
    if c == [] then 0
    else
      var m := Greatest(c[1..]);
      assert forall i :: 1 <= i < |c| ==> c[i] == c[1..][i - 1];
      if c[0].hash < m then m else c[0].hash + 1
  }

  /** The searches find every row exactly when the list is sorted by hash. */
  lemma {:induction false} SearchesWorkIffSorted(c: seq<Record>)
    ensures EveryRowIsFound(c) <==> Sorted(c)
  {
    if EveryRowIsFound(c) {
      forall i | 0 <= i < |c| ensures FoundRow(c, 0, |c|, -1, Greatest(c), i) {}
      FoundWithinIsSorted(c, 0, |c|, -1, Greatest(c));
    }
    if Sorted(c) {
      forall i | 0 <= i < |c| ensures LowerBound(c, c[i].hash, 0, |c|) <= i < UpperBound(c, c[i].hash, 0, |c|) {
        SortedBounds(c, c[i].hash);
      }
    }
  }

  // ---------------------------------------------------------------- rebuild

  /** refreshWallet: the rows of the shown transactions, in the order the wallet's map is iterated. */
  function Refresh(rows: Rows, wallet: Wallet, order: seq<Hash>): seq<Record> {
    if order == [] then []
    else Refresh(rows, wallet, order[..|order| - 1]) + Wanted(rows, wallet, order[|order| - 1])
  }

  ghost predicate Enumerates(order: seq<Hash>, wallet: Wallet) {
    && (forall h :: h in order <==> h in wallet)
    && (forall i, j :: 0 <= i < j < |order| ==> order[i] != order[j])
  }

  ghost predicate AllOf(c: seq<Record>, h: Hash) { forall k :: 0 <= k < |c| ==> c[k].hash == h }

  lemma {:induction false} WantedIsUniform(rows: Rows, wallet: Wallet, h: Hash)
    requires WellKeyed(rows)
    ensures AllOf(Wanted(rows, wallet, h), h)
  {
  }

  lemma {:induction false} BlockOfJoin(a: seq<Record>, b: seq<Record>, g: Hash, h: Hash)
    requires AllOf(b, g)
    ensures h != g ==> Block(a + b, h) == Block(a, h)
    ensures h == g && Block(a, h) == [] ==> Block(a + b, h) == b
  {
    BlockConcat(a, b, h);
    BlockOfUniform(b, h, g);
    assert Block(a, h) + [] == Block(a, h) && [] + b == b;
  }

  lemma {:induction false} DistinctSnoc(order: seq<Hash>, h: Hash)
    requires order != [] && forall i, j :: 0 <= i < j < |order| ==> order[i] != order[j]
    ensures var init, last := order[..|order| - 1], order[|order| - 1];
            last !in init && (h in order <==> h in init || h == last)
  {
    assert order == order[..|order| - 1] + [order[|order| - 1]];
  }

  lemma {:induction false} RefreshBlocks(rows: Rows, wallet: Wallet, order: seq<Hash>, h: Hash)
    requires WellKeyed(rows)
    requires forall i, j :: 0 <= i < j < |order| ==> order[i] != order[j]
    ensures Block(Refresh(rows, wallet, order), h) == if h in order then Wanted(rows, wallet, h) else []
  {
    if order != [] {
      var init, last := order[..|order| - 1], order[|order| - 1];
      RefreshBlocks(rows, wallet, init, h);
      DistinctSnoc(order, h);
      WantedIsUniform(rows, wallet, last);
      BlockOfJoin(Refresh(rows, wallet, init), Wanted(rows, wallet, last), last, h);
    }
  }

  /** A rebuild displays the right rows, in whatever order the map is iterated. */
  lemma {:induction false} RefreshAgrees(rows: Rows, wallet: Wallet, order: seq<Hash>)
    requires WellKeyed(rows) && Enumerates(order, wallet)
    ensures Agrees(rows, wallet, Refresh(rows, wallet, order))
  {
    forall h ensures Block(Refresh(rows, wallet, order), h) == Wanted(rows, wallet, h) {
      RefreshBlocks(rows, wallet, order, h);
    }
  }

  /** The transactions that contribute rows are iterated by ascending hash. */
  ghost predicate AscendingRows(rows: Rows, wallet: Wallet, order: seq<Hash>) {
    forall i, j :: 0 <= i < j < |order| && Wanted(rows, wallet, order[i]) != [] && Wanted(rows, wallet, order[j]) != []
                   ==> order[i] <= order[j]
  }

  /** Row hashes of a rebuild come from the contributing transactions, and every one of these appears. */
  ghost predicate HashesOf(c: seq<Record>, rows: Rows, wallet: Wallet, order: seq<Hash>) {
    && (forall k :: 0 <= k < |c| ==> c[k].hash in order && Wanted(rows, wallet, c[k].hash) != [])
    && (forall i :: 0 <= i < |order| && Wanted(rows, wallet, order[i]) != [] ==>
                    exists k :: 0 <= k < |c| && c[k].hash == order[i])
  }

  lemma {:induction false} HashesOfSnoc(c: seq<Record>, rows: Rows, wallet: Wallet, order: seq<Hash>, last: Hash)
    requires WellKeyed(rows) && HashesOf(c, rows, wallet, order)
    ensures HashesOf(c + Wanted(rows, wallet, last), rows, wallet, order + [last])
  {
    var post: seq<Record> := Wanted(rows, wallet, last);
    var c' := c + post;
    forall k | 0 <= k < |c'| ensures c'[k].hash in order + [last] && Wanted(rows, wallet, c'[k].hash) != [] {
      if k >= |c| { assert c'[k] == rows(last)[k - |c|]; }
    }
    forall i | 0 <= i < |order + [last]| && Wanted(rows, wallet, (order + [last])[i]) != []
      ensures exists k :: 0 <= k < |c'| && c'[k].hash == (order + [last])[i]
    {
      if i < |order| {
        var k :| 0 <= k < |c| && c[k].hash == order[i];
        assert c'[k].hash == order[i];
      } else {
        assert c'[|c|] == rows(last)[0];
      }
    }
  }

  lemma {:induction false} RefreshHashes(rows: Rows, wallet: Wallet, order: seq<Hash>)
    requires WellKeyed(rows)
    ensures HashesOf(Refresh(rows, wallet, order), rows, wallet, order)
  {
    if order != [] {
      var init, last := order[..|order| - 1], order[|order| - 1];
      RefreshHashes(rows, wallet, init);
      HashesOfSnoc(Refresh(rows, wallet, init), rows, wallet, init, last);
      assert order == init + [last];
    }
  }

  ghost predicate UpTo(c: seq<Record>, bound: Hash) { forall k :: 0 <= k < |c| ==> c[k].hash <= bound }

  lemma {:induction false} SortedSnoc(pre: seq<Record>, post: seq<Record>, last: Hash)
    requires AllOf(post, last)
    ensures Sorted(pre + post) <==> Sorted(pre) && (post == [] || UpTo(pre, last))
  {
    var c := pre + post;
    if Sorted(c) {
      assert forall k :: 0 <= k < |pre| ==> c[k] == pre[k];
      if post != [] {
        forall k | 0 <= k < |pre| ensures pre[k].hash <= last { assert c[k].hash <= c[|pre|].hash; }
      }
    }
  }

  /** All contributing transactions of `order` have hashes up to `bound`. */
  ghost predicate RowsUpTo(rows: Rows, wallet: Wallet, order: seq<Hash>, bound: Hash) {
    forall i :: 0 <= i < |order| && Wanted(rows, wallet, order[i]) != [] ==> order[i] <= bound
  }

  lemma {:induction false} AscendingSnoc(rows: Rows, wallet: Wallet, init: seq<Hash>, last: Hash)
    ensures AscendingRows(rows, wallet, init + [last]) <==>
            && AscendingRows(rows, wallet, init)
            && (Wanted(rows, wallet, last) == [] || RowsUpTo(rows, wallet, init, last))
  {
    var order := init + [last];
    assert forall i :: 0 <= i < |init| ==> order[i] == init[i];
    if AscendingRows(rows, wallet, order) {
      forall i | 0 <= i < |init| && Wanted(rows, wallet, init[i]) != [] && Wanted(rows, wallet, last) != []
        ensures init[i] <= last
      {
        assert order[i] <= order[|init|];
      }
    }
  }

  lemma {:induction false} UpToIsUpTo(c: seq<Record>, rows: Rows, wallet: Wallet, order: seq<Hash>, bound: Hash)
    requires HashesOf(c, rows, wallet, order)
    ensures UpTo(c, bound) <==> RowsUpTo(rows, wallet, order, bound)
  {
    if RowsUpTo(rows, wallet, order, bound) {
      forall k | 0 <= k < |c| ensures c[k].hash <= bound { assert c[k].hash in order; }
    }
    if UpTo(c, bound) {
      forall i | 0 <= i < |order| && Wanted(rows, wallet, order[i]) != [] ensures order[i] <= bound {
        var k :| 0 <= k < |c| && c[k].hash == order[i];
      }
    }
  }

  /** A rebuild is sorted exactly when the map is iterated by ascending hash, as far as rows are concerned. */
  lemma {:induction false} RefreshSortedIffAscending(rows: Rows, wallet: Wallet, order: seq<Hash>)
    requires WellKeyed(rows)
    ensures Sorted(Refresh(rows, wallet, order)) <==> AscendingRows(rows, wallet, order)
  {
    if order != [] {
      var init, last := order[..|order| - 1], order[|order| - 1];
      var pre: seq<Record>, post: seq<Record> := Refresh(rows, wallet, init), Wanted(rows, wallet, last);
      RefreshSortedIffAscending(rows, wallet, init);
      assert UpTo(pre, last) <==> RowsUpTo(rows, wallet, init, last) by {
        RefreshHashes(rows, wallet, init);
        UpToIsUpTo(pre, rows, wallet, init, last);
      }
      WantedIsUniform(rows, wallet, last);
      SortedSnoc(pre, post, last);
      AscendingSnoc(rows, wallet, init, last);
      assert order == init + [last];
    }
  }

  // ---------------------------------------------------------------- rows that a search misses

  /** The rows of `h` are those from `first` up to `last`. */
  ghost predicate OnlyAt(c: seq<Record>, h: Hash, first: nat, last: nat) {
    first <= last <= |c| && forall k :: 0 <= k < |c| ==> (c[k].hash == h <==> first <= k < last)
  }

  /** A rebuild places the rows of each transaction next to each other. */
  lemma {:induction false} RefreshIsContiguous(rows: Rows, wallet: Wallet, order: seq<Hash>, h: Hash)
    returns (first: nat, last: nat)
    requires WellKeyed(rows)
    requires forall i, j :: 0 <= i < j < |order| ==> order[i] != order[j]
    ensures OnlyAt(Refresh(rows, wallet, order), h, first, last)
  {
    if order == [] {
      first, last := 0, 0;
    } else {
      var init, g := order[..|order| - 1], order[|order| - 1];
      var pre, post := Refresh(rows, wallet, init), Wanted(rows, wallet, g);
      first, last := RefreshIsContiguous(rows, wallet, init, h);
      WantedIsUniform(rows, wallet, g);
      if g == h {
        RefreshBlocks(rows, wallet, init, g);
        BlockEmpty(pre, g);
        first, last := |pre|, |pre + post|;
      }
    }
  }

  /** Left of a row of `h`, the lower search stops before all the rows of `h`. */
  lemma {:induction false} LowerIsBefore(c: seq<Record>, h: Hash, begin: nat, n: nat, first: nat, last: nat)
    requires OnlyAt(c, h, first, last) && begin <= first <= begin + n < last
    ensures LowerBound(c, h, begin, n) <= first
    decreases n
  {
    if n > 0 {
      var mid := begin + n / 2;
      if c[mid].hash < h {
        LowerIsBefore(c, h, mid + 1, n - n / 2 - 1, first, last);
      } else if first < mid {
        LowerIsBefore(c, h, begin, n / 2, first, last);
      }
    }
  }

  /** Right of a row of `h`, the upper search stops after all the rows of `h`. */
  lemma {:induction false} UpperIsAfter(c: seq<Record>, h: Hash, begin: nat, n: nat, first: nat, last: nat)
    requires OnlyAt(c, h, first, last) && first < begin <= last <= begin + n <= |c|
    ensures last <= UpperBound(c, h, begin, n)
    decreases n
  {
    if n > 0 {
      var mid := begin + n / 2;
      if h < c[mid].hash {
        UpperIsAfter(c, h, begin, n / 2, first, last);
      } else if mid + 1 < last {
        UpperIsAfter(c, h, mid + 1, n - n / 2 - 1, first, last);
      }
    }
  }

  /** The range from `begin` to `end` holds all places from `first` to `last`, or none. */
  predicate AllOrNone(begin: int, end: int, first: int, last: int) {
    begin <= first <= last <= end || end <= first || last <= begin
  }

  lemma {:induction false} HalvesAllOrNone(begin: int, mid: int, end: int, first: int, last: int)
    requires begin <= mid < end && AllOrNone(begin, end, first, last) && !(first <= mid < last)
    ensures AllOrNone(begin, mid, first, last) && AllOrNone(mid + 1, end, first, last)
  {
  }

  /** The searches found all the rows, or nothing at a place outside them. */
  predicate Found(lo: int, up: int, first: int, last: int) {
    lo <= first <= last <= up || (lo == up && (lo <= first || last <= lo))
  }

  /** Past a row that is not of `h`, both searches go on in the same half. */
  lemma {:induction false} SameHalf(c: seq<Record>, h: Hash, begin: nat, n: nat) returns (b: nat, m: nat)
    requires n > 0 && begin + n <= |c| && c[begin + n / 2].hash != h
    ensures m < n && b + m <= |c|
    ensures (b == begin && b + m == begin + n / 2) || (b == begin + n / 2 + 1 && b + m == begin + n)
    ensures LowerBound(c, h, begin, n) == LowerBound(c, h, b, m) && UpperBound(c, h, begin, n) == UpperBound(c, h, b, m)
  {
    if c[begin + n / 2].hash < h {
      b, m := begin + n / 2 + 1, n - n / 2 - 1;
    } else {
      b, m := begin, n / 2;
    }
  }

  lemma {:induction false} StillAllOrNothing(c: seq<Record>, h: Hash, begin: nat, n: nat, mid: nat, first: nat,
                                             last: nat, b: nat, m: nat)
    requires OnlyAt(c, h, first, last) && AllOrNone(begin, begin + n, first, last) && mid < |c| && c[mid].hash != h
    requires begin <= mid < begin + n
    requires (b == begin && b + m == mid) || (b == mid + 1 && b + m == begin + n)
    ensures AllOrNone(b, b + m, first, last)
  {
    HalvesAllOrNone(begin, mid, begin + n, first, last);
  }

  /** If the rows of `h` stand together, the searches find all of them, or nothing at a place outside them. */
  lemma {:induction false} AllOrNothing(c: seq<Record>, h: Hash, begin: nat, n: nat, first: nat, last: nat)
    requires OnlyAt(c, h, first, last) && begin + n <= |c| && AllOrNone(begin, begin + n, first, last)
    ensures Found(LowerBound(c, h, begin, n), UpperBound(c, h, begin, n), first, last)
    decreases n
  {
    if n > 0 {
      var mid := begin + n / 2;
      if c[mid].hash == h {
        assert first <= mid < last;
        HitFindsAll(c, h, begin, n, first, last);
      } else {
        var b, m := SameHalf(c, h, begin, n);
        StillAllOrNothing(c, h, begin, n, mid, first, last, b, m);
        AllOrNothing(c, h, b, m, first, last);
      }
    }
  }

  lemma {:induction false} HitFindsAll(c: seq<Record>, h: Hash, begin: nat, n: nat, first: nat, last: nat)
    requires OnlyAt(c, h, first, last) && begin <= first <= begin + n / 2 < last <= begin + n <= |c|
    ensures LowerBound(c, h, begin, n) <= first && last <= UpperBound(c, h, begin, n)
  {
    LowerIsBefore(c, h, begin, n / 2, first, last);
    UpperIsAfter(c, h, begin + n / 2 + 1, n - n / 2 - 1, first, last);
  }

  lemma {:induction false} OneSideIsEmpty(c: seq<Record>, h: Hash, p: nat, first: nat, last: nat)
    requires OnlyAt(c, h, first, last) && p <= |c| && (p <= first || last <= p)
    ensures Block(c[..p], h) == [] || Block(c[p..], h) == []
  {
    if p <= first { BlockEmpty(c[..p], h); } else { BlockEmpty(c[p..], h); }
  }

  /** Rows inserted outside the rows of `h` double them. */
  lemma {:induction false} InsertDoubles(c: seq<Record>, h: Hash, p: nat, mid: seq<Record>)
    requires p <= |c| && AllOf(mid, h) && Block(c, h) == mid && (Block(c[..p], h) == [] || Block(c[p..], h) == [])
    ensures Block(c[..p] + mid + c[p..], h) == mid + mid
  {
    var a, b := Block(c[..p], h), Block(c[p..], h);
    assert a + b == mid by {
      assert c == c[..p] + c[p..];
      BlockConcat(c[..p], c[p..], h);
    }
    BlockConcat3(c[..p], mid, c[p..], h);
    BlockOfUniform(mid, h, h);
    if a == [] { assert a + b == b && a + mid + b == mid + b; } else { assert a + b == a && a + mid + b == a + mid; }
  }

  // ---------------------------------------------------------------- incremental update

  /** An update of a transaction that should appear counts as new, of one that should disappear as deleted. */
  function Effective(status: ChangeType, show: bool, inModel: bool): ChangeType {
    if status.Updated? && show && !inModel then New
    else if status.Updated? && !show && inModel then Deleted
    else status
  }

  /** updateWallet once the searches have returned `lo` and `up`; `present` tells whether the wallet still
      holds the transaction. */
  function UpdateAt(rows: Rows, present: bool, c: seq<Record>, n: Notification, lo: nat,
                    up: nat): (seq<Record>, RowsSignal)
    requires lo <= up <= |c|
  {
    match Effective(n.status, n.show, lo != up)
    case New =>
      if lo != up || !n.show || !present || rows(n.hash) == [] then (c, NoSignal)
      else (c[..lo] + rows(n.hash) + c[lo..], InsertRows(lo, lo + |rows(n.hash)| - 1))
    case Deleted =>
      if lo == up then (c, NoSignal) else (c[..lo] + c[up..], RemoveRows(lo, up - 1))
    case Updated => (c, NoSignal)
  }

  function Update(rows: Rows, present: bool, c: seq<Record>, n: Notification): (seq<Record>, RowsSignal) {
    BoundsAreOrdered(c, n.hash, 0, |c|);
    UpdateAt(rows, present, c, n, LowerBound(c, n.hash, 0, |c|), UpperBound(c, n.hash, 0, |c|))
  }

  /** Nothing is inserted for a transaction that the wallet no longer holds, nor for one that is not to be shown;
      what is inserted or removed is announced. */
  lemma {:induction false} InsertsOnlyWhatIsShown(rows: Rows, present: bool, c: seq<Record>, n: Notification)
    ensures Update(rows, present, c, n).1.InsertRows? ==> present && n.show && n.status != Deleted
    ensures Update(rows, present, c, n).1.RemoveRows? ==> n.status == Deleted || (n.status == Updated && !n.show)
    ensures Update(rows, present, c, n).1.NoSignal? ==> Update(rows, present, c, n).0 == c
  {
    BoundsAreOrdered(c, n.hash, 0, |c|);
  }

  /** A view that knows the model only through signals: it fetches inserted rows and drops removed ones. */
  function Follow(view: seq<Record>, signal: RowsSignal, model: seq<Record>): seq<Record> {
    match signal
    case NoSignal => view
    case InsertRows(first, last) =>
      if first <= |view| && first <= last < |model| then view[..first] + model[first..last + 1] + view[first..]
      else view
    case RemoveRows(first, last) =>
      if first <= last < |view| then view[..first] + view[last + 1..] else view
  }

  /** On any list, sorted or not, a view that follows the announced row ranges stays equal to the list. */
  lemma {:induction false} SignalsTrackTheList(rows: Rows, present: bool, c: seq<Record>, n: Notification)
    ensures Follow(c, Update(rows, present, c, n).1, Update(rows, present, c, n).0) == Update(rows, present, c, n).0
  {
    BoundsAreOrdered(c, n.hash, 0, |c|);
  }

  /** Whether the transaction has rows after an update, from whether it had rows before. */
  function InModelAfter(inModel: bool, n: Notification, present: bool): bool {
    match Effective(n.status, n.show, inModel)
    case New => inModel || (n.show && present)
    case Deleted => false
    case Updated => inModel
  }

  lemma {:induction false} InsertKeepsOrder(a: seq<Record>, mid: seq<Record>, b: seq<Record>, h: Hash)
    requires Sorted(a + b)
    requires forall k :: 0 <= k < |a| ==> a[k].hash < h
    requires forall k :: 0 <= k < |b| ==> h < b[k].hash
    requires forall k :: 0 <= k < |mid| ==> mid[k].hash == h
    ensures Sorted(a + mid + b)
  {
    assert forall k :: 0 <= k < |a| ==> (a + b)[k] == a[k];
    assert forall k :: 0 <= k < |b| ==> (a + b)[|a| + k] == b[k];
  }

  lemma {:induction false} RemoveKeepsOrder(c: seq<Record>, lo: nat, up: nat)
    requires Sorted(c) && lo <= up <= |c|
    ensures Sorted(c[..lo] + c[up..])
  {
  }

  lemma {:induction false} BlockOfParts(a: seq<Record>, b: seq<Record>, d: seq<Record>, h: Hash, g: Hash)
    requires AllOf(b, h)
    ensures Block(a + b + d, g) == Block(a, g) + (if g == h then b else []) + Block(d, g)
  {
    BlockConcat3(a, b, d, g);
    BlockOfUniform(b, g, h);
  }

  lemma {:induction false} ReplacedBlock(c: seq<Record>, lo: nat, up: nat, mid: seq<Record>, h: Hash, g: Hash)
    requires lo <= up <= |c| && AllOf(c[lo..up], h) && AllOf(mid, h)
    requires Block(c[..lo], h) == [] == Block(c[up..], h)
    ensures Block(c[..lo] + mid + c[up..], g) == if g == h then mid else Block(c, g)
  {
    BlockOfParts(c[..lo], mid, c[up..], h, g);
    if g == h {
      EmptyAround(Block(c[..lo], g), mid, Block(c[up..], g));
    } else {
      BlockOfParts(c[..lo], c[lo..up], c[up..], h, g);
      assert c == c[..lo] + c[lo..up] + c[up..];
    }
  }

  /** On any list, an update replaces what the two searches delimit, by all the rows or by none. */
  lemma {:induction false} UpdateShape(rows: Rows, present: bool, c: seq<Record>, n: Notification, lo: nat, up: nat)
    requires lo <= up <= |c|
    requires lo == up || c[lo..up] == rows(n.hash)
    ensures UpdateAt(rows, present, c, n, lo, up).0 ==
            c[..lo] + (if InModelAfter(lo != up, n, present) then rows(n.hash) else []) + c[up..]
  {
    assert c == c[..lo] + c[lo..up] + c[up..];
    assert c[..lo] + [] + c[up..] == c[..lo] + c[up..];
  }

  /** `after` is `before` with the block of `h` replaced by `block`, still sorted. */
  ghost predicate BlockReplaced(before: seq<Record>, after: seq<Record>, h: Hash, block: seq<Record>) {
    Sorted(after) && forall g :: Block(after, g) == if g == h then block else Block(before, g)
  }

  lemma {:induction false} ReplaceInSorted(c: seq<Record>, lo: nat, up: nat, mid: seq<Record>, h: Hash)
    requires Sorted(c) && lo == LowerBound(c, h, 0, |c|) && up == UpperBound(c, h, 0, |c|)
    requires forall k :: 0 <= k < |mid| ==> mid[k].hash == h
    ensures lo <= up
    ensures BlockReplaced(c, c[..lo] + mid + c[up..], h, mid)
  {
    BoundsDelimitTheBlock(c, h);
    SortedBounds(c, h);
    RemoveKeepsOrder(c, lo, up);
    InsertKeepsOrder(c[..lo], mid, c[up..], h);
    forall g { ReplacedBlock(c, lo, up, mid, h, g); }
  }

  /** On a sorted list an update keeps the order, replaces the transaction's block as a whole and leaves the
      other transactions' blocks alone. */
  lemma {:induction false} UpdateReplacesOneBlock(rows: Rows, present: bool, c: seq<Record>, n: Notification)
    requires WellKeyed(rows) && Sorted(c)
    requires Block(c, n.hash) == [] || Block(c, n.hash) == rows(n.hash)
    ensures BlockReplaced(c, Update(rows, present, c, n).0, n.hash,
                          if InModelAfter(Block(c, n.hash) != [], n, present) then rows(n.hash) else [])
  {
    BoundsDelimitTheBlock(c, n.hash);
    var lo, up := LowerBound(c, n.hash, 0, |c|), UpperBound(c, n.hash, 0, |c|);
    var mid := if InModelAfter(lo != up, n, present) then rows(n.hash) else [];
    UpdateShape(rows, present, c, n, lo, up);
    ReplaceInSorted(c, lo, up, mid, n.hash);
  }

  // ---------------------------------------------------------------- the code

  class TransactionTablePriv {
    const book: Hash -> Tx
    var cachedWallet: seq<Record>
    var signals: seq<RowsSignal>

    constructor (book: Hash -> Tx)
      ensures this.book == book && cachedWallet == [] && signals == []
    {
      this.book := book;
      cachedWallet, signals := [], [];
    }

    method RefreshWallet(wallet: Wallet, order: seq<Hash>)
      modifies this`cachedWallet
      ensures cachedWallet == Refresh(RowsOf(book), wallet, order)
    {
      cachedWallet := [];
      for i := 0 to |order|
        invariant cachedWallet == Refresh(RowsOf(book), wallet, order[..i])
      {
        assert order[..i + 1][..i] == order[..i];
        if order[i] in wallet && wallet[order[i]] {
          var parts := DecomposeTransaction(book(order[i]));
          cachedWallet := cachedWallet + parts;
        }
      }
      assert order[..|order|] == order;
    }

    method FindLower(hash: Hash) returns (begin: nat)
      ensures begin == LowerBound(cachedWallet, hash, 0, |cachedWallet|)
    {
      begin := 0;
      var n := |cachedWallet|;
      while n > 0
        invariant 0 <= n && begin + n <= |cachedWallet|
        invariant LowerBound(cachedWallet, hash, begin, n) == LowerBound(cachedWallet, hash, 0, |cachedWallet|)
      {
        var half := n / 2;
        if cachedWallet[begin + half].hash < hash {
          begin, n := begin + half + 1, n - half - 1;
        } else {
          n := half;
        }
      }
    }

    method FindUpper(hash: Hash) returns (begin: nat)
      ensures begin == UpperBound(cachedWallet, hash, 0, |cachedWallet|)
    {
      begin := 0;
      var n := |cachedWallet|;
      while n > 0
        invariant 0 <= n && begin + n <= |cachedWallet|
        invariant UpperBound(cachedWallet, hash, begin, n) == UpperBound(cachedWallet, hash, 0, |cachedWallet|)
      {
        var half := n / 2;
        if hash < cachedWallet[begin + half].hash {
          n := half;
        } else {
          begin, n := begin + half + 1, n - half - 1;
        }
      }
    }

    /** The insertion loop: one row at a time, each after the one before it. */
    method InsertAt(at: nat, toInsert: seq<Record>)
      requires at <= |cachedWallet|
      modifies this`cachedWallet
      ensures cachedWallet == old(cachedWallet)[..at] + toInsert + old(cachedWallet)[at..]
    {
      for k := 0 to |toInsert|
        invariant cachedWallet == old(cachedWallet)[..at] + toInsert[..k] + old(cachedWallet)[at..]
      {
        cachedWallet := cachedWallet[..at + k] + [toInsert[k]] + cachedWallet[at + k..];
        assert toInsert[..k + 1] == toInsert[..k] + [toInsert[k]];
      }
      assert toInsert[..|toInsert|] == toInsert;
    }

    /** The switch over the derived status, with the rows of the transaction at lower..upper. */
    method Apply(wallet: Wallet, n: Notification, lower: nat, upper: nat)
      requires lower <= upper <= |cachedWallet|
      modifies this`cachedWallet, this`signals
      ensures cachedWallet == UpdateAt(RowsOf(book), n.hash in wallet, old(cachedWallet), n, lower, upper).0
      ensures signals == old(signals) + [UpdateAt(RowsOf(book), n.hash in wallet, old(cachedWallet), n, lower, upper).1]
    {
      var inModel := lower != upper;
      var status := n.status;
      if status.Updated? {
        if n.show && !inModel { status := New; }
        if !n.show && inModel { status := Deleted; }
      }
      var signal := NoSignal;
      match status {
        case New =>
          if !inModel && n.show && n.hash in wallet {
            var toInsert := DecomposeTransaction(book(n.hash));
            if toInsert != [] {
              signal := InsertRows(lower, lower + |toInsert| - 1);
              InsertAt(lower, toInsert);
            }
          }
        case Deleted =>
          if inModel {
            signal := RemoveRows(lower, upper - 1);
            cachedWallet := cachedWallet[..lower] + cachedWallet[upper..];
          }
        case Updated =>
      }
      signals := signals + [signal];
    }

    method UpdateWallet(wallet: Wallet, hash: Hash, status: ChangeType, show: bool)
      modifies this`cachedWallet, this`signals
      ensures cachedWallet ==
              Update(RowsOf(book), hash in wallet, old(cachedWallet), Notification(hash, status, show)).0
      ensures signals ==
              old(signals) +
              [Update(RowsOf(book), hash in wallet, old(cachedWallet), Notification(hash, status, show)).1]
    {
      var lower := FindLower(hash);
      var upper := FindUpper(hash);
      BoundsAreOrdered(cachedWallet, hash, 0, |cachedWallet|);
      Apply(wallet, Notification(hash, status, show), lower, upper);
    }
  }
}
