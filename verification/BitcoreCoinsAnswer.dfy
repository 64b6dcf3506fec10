/**
 The coins answer (the TxForTxIdCoins case of threadSafeFinished): what is reported once the search has
 finished is what the chain says, independently of the order in which answers arrived.
 */
module BitcoreCoinsAnswer {
  import opened BitcoreSearch
  import opened Options
  import opened Sequences
  import opened BitcoreCoins
  import opened BitcoreCoinsRuns

  datatype InCoin = InCoin(spentTxid: Id, mintTxid: Id, spentHeight: int, mintHeight: Option<int>, mintIndex: nat,
                           value: Option<nat>)

  datatype OutCoin = OutCoin(mintTxid: Id, mintHeight: int, mintIndex: nat, value: nat, spentHeight: int,
                             spentTxid: Option<Id>)

  /** The report, or a failed assertion. */
  datatype Report = Report(inputs: seq<InCoin>, outputs: seq<OutCoin>) | Failed

  // ---------------------------------------------------------------- searching the delivered transactions

  function FirstAt(answer: seq<Answer>, p: Pos): Option<Answer> {
    if answer == [] then None else if answer[0].pos == p then Some(answer[0]) else FirstAt(answer[1..], p)
  }

  function FirstWithId(answer: seq<Answer>, id: Id): Option<Answer> {
    if answer == [] then None else if answer[0].txid == Some(id) then Some(answer[0]) else FirstWithId(answer[1..], id)
  }

  lemma {:induction false} FirstAtFinds(answer: seq<Answer>, p: Pos)
    ensures FirstAt(answer, p).None? <==> forall j :: 0 <= j < |answer| ==> answer[j].pos != p
    ensures FirstAt(answer, p).Some? ==> FirstAt(answer, p).value.pos == p && FirstAt(answer, p).value in answer
  {
    if answer != [] {
      FirstAtFinds(answer[1..], p);
      assert forall j :: 1 <= j < |answer| ==> answer[j] == answer[1..][j - 1];
      assert forall j :: 0 <= j < |answer| - 1 ==> answer[1..][j] == answer[j + 1];
    }
  }

  lemma {:induction false} FirstWithIdFinds(answer: seq<Answer>, id: Id)
    ensures FirstWithId(answer, id).None? <==> forall j :: 0 <= j < |answer| ==> answer[j].txid != Some(id)
    ensures FirstWithId(answer, id).Some? ==>
            FirstWithId(answer, id).value.txid == Some(id) && FirstWithId(answer, id).value in answer
  {
    if answer != [] {
      FirstWithIdFinds(answer[1..], id);
      assert forall j :: 1 <= j < |answer| ==> answer[j] == answer[1..][j - 1];
      assert forall j :: 0 <= j < |answer| - 1 ==> answer[1..][j] == answer[j + 1];
    }
  }

  // ---------------------------------------------------------------- the report as the code builds it

  /** What the report is built from. */
  datatype Source = Source(id: Id, pos: Pos, coinbase: bool, rows: map<nat, Pos>, answer: seq<Answer>,
                           heights: map<Id, int>)

  function InputStart(src: Source, prev: Id): InCoin {
    InCoin(src.id, prev, src.pos.height, if prev in src.heights then Some(src.heights[prev]) else None, 0, None)
  }

  function InputIndexed(src: Source, cur: InCoin, index: nat): InCoin {
    var found := FirstWithId(src.answer, cur.mintTxid);
    cur.(mintIndex := index,
         value := if found.Some? && |found.value.outputs| > index then Some(found.value.outputs[index]) else cur.value)
  }

  function OutputCoin(src: Source, v: nat, index: nat, outIndex: nat): OutCoin
    requires outIndex in src.rows
  {
    var row := src.rows[outIndex];
    var spender := FirstAt(src.answer, row);
    OutCoin(src.id, src.pos.height, index, v, row.height, if spender.Some? then spender.value.txid else None)
  }

  /** The loop over the raw transaction, from `tags` on. */
  function Scan(src: Source, tags: seq<Tag>, curIn: InCoin, curOut: OutCoin, outIndex: nat, r: Report): Report
    requires r.Report?
    decreases tags
  {
    if tags == [] then r
    else
      var rest := tags[1..];
      match tags[0]
      case PrevTxHash(id) => Scan(src, rest, if src.coinbase then curIn else InputStart(src, id), curOut, outIndex, r)
      case PrevTxIndex(n) => Scan(src, rest,
                                  if src.coinbase then curIn else InputIndexed(src, curIn, n), curOut, outIndex, r)
      case TxInScript => Scan(src, rest, curIn, curOut, outIndex,
                              if src.coinbase then r else r.(inputs := r.inputs + [curIn]))
      case OutputValue(v) =>
        if outIndex !in src.rows then Failed
        else Scan(src, rest, curIn, OutputCoin(src, v, |r.outputs|, outIndex), outIndex + 1, r)
      case OutputScript => Scan(src, rest, curIn, curOut, outIndex, r.(outputs := r.outputs + [curOut]))
      case OtherTag => Scan(src, rest, curIn, curOut, outIndex, r)
  }

  const NO_IN := InCoin(0, 0, 0, None, 0, None)
  const NO_OUT := OutCoin(0, 0, 0, 0, 0, None)

  function SourceOf(s: Search, rows: map<nat, Pos>): Source
    requires |s.answer| > 0 && s.answer[0].full.Some?
  {
    Source(s.answer[0].full.value.id, s.answer[0].pos, s.answer[0].Coinbase(), rows, s.answer, s.blockHeights)
  }

  /** The report for a finished request; taking the first of no transactions, or of several table entries, fails. */
  ghost function CoinsReport(s: Search): Report {
    if s.answer == [] || |s.txRefs| != 1 then Failed
    else if s.answer[0].full.None? then Report([], [])
    else
      var p :| p in s.txRefs;
      Scan(SourceOf(s, s.txRefs[p]), Tags(s.answer[0].full.value), NO_IN, NO_OUT, 0, Report([], []))
  }

  /** The same as a loop with running variables. */
  method BuildReport(src: Source, tx: ChainTx) returns (r: Report)
    ensures r == Scan(src, Tags(tx), NO_IN, NO_OUT, 0, Report([], []))
  {
    var tags := Tags(tx);
    var inputs, outputs, curIn, curOut, outIndex := [], [], NO_IN, NO_OUT, 0;
    for k := 0 to |tags|
      invariant 0 <= outIndex
      invariant Scan(src, tags[k..], curIn, curOut, outIndex, Report(inputs, outputs))
             == Scan(src, Tags(tx), NO_IN, NO_OUT, 0, Report([], []))
    {
      assert tags[k..][0] == tags[k] && tags[k..][1..] == tags[k + 1..];
      match tags[k] {
        case PrevTxHash(id) =>
          if !src.coinbase { curIn := InputStart(src, id); }
        case PrevTxIndex(n) =>
          if !src.coinbase { curIn := InputIndexed(src, curIn, n); }
        case TxInScript =>
          if !src.coinbase { inputs := inputs + [curIn]; }
        case OutputValue(v) =>
          if outIndex !in src.rows { return Failed; }
          curOut := OutputCoin(src, v, |outputs|, outIndex);
          outIndex := outIndex + 1;
        case OutputScript =>
          outputs := outputs + [curOut];
        case OtherTag =>
      }
    }
    r := Report(inputs, outputs);
  }

  // ---------------------------------------------------------------- the report in closed form

  function Ins(src: Source, ins: seq<TxIn>): seq<InCoin> {
    seq(|ins|, k requires 0 <= k < |ins| => InputIndexed(src, InputStart(src, ins[k].prev), ins[k].index))
  }

  function Outs(src: Source, outs: seq<nat>, from: nat): seq<OutCoin>
    requires forall i :: from <= i < from + |outs| ==> i in src.rows
  {
    seq(|outs|, k requires 0 <= k < |outs| => OutputCoin(src, outs[k], from + k, from + k))
  }

  lemma {:induction false} ScanTag(src: Source, tag: Tag, rest: seq<Tag>, curIn: InCoin, curOut: OutCoin, outIndex: nat,
                                   r: Report)
    requires r.Report?
    ensures Scan(src, [tag] + rest, curIn, curOut, outIndex, r) ==
            match tag
            case PrevTxHash(id) => Scan(src, rest,
                                        if src.coinbase then curIn else InputStart(src, id), curOut, outIndex, r)
            case PrevTxIndex(n) => Scan(src, rest,
                                        if src.coinbase then curIn
                                        else InputIndexed(src, curIn, n), curOut, outIndex, r)
            case TxInScript => Scan(src, rest, curIn, curOut, outIndex,
                                    if src.coinbase then r else r.(inputs := r.inputs + [curIn]))
            case OutputValue(v) =>
              if outIndex !in src.rows then Failed
              else Scan(src, rest, curIn, OutputCoin(src, v, |r.outputs|, outIndex), outIndex + 1, r)
            case OutputScript => Scan(src, rest, curIn, curOut, outIndex, r.(outputs := r.outputs + [curOut]))
            case OtherTag => Scan(src, rest, curIn, curOut, outIndex, r)
  {
    assert ([tag] + rest)[1..] == rest;
  }

  lemma {:induction false} ScanOneInput(src: Source, x: TxIn, rest: seq<Tag>, curIn: InCoin, curOut: OutCoin,
                                        r: Report) returns (curIn': InCoin)
    requires r.Report?
    ensures Scan(src, [PrevTxHash(x.prev), PrevTxIndex(x.index), TxInScript, OtherTag] + rest, curIn, curOut, 0, r) ==
            Scan(src, rest, curIn', curOut, 0, if src.coinbase then r else r.(inputs := r.inputs + Ins(src, [x])))
  {
    var t3 := [OtherTag] + rest;
    var t2 := [TxInScript] + t3;
    var t1 := [PrevTxIndex(x.index)] + t2;
    assert [PrevTxHash(x.prev), PrevTxIndex(x.index), TxInScript, OtherTag] + rest == [PrevTxHash(x.prev)] + t1;
    curIn' := if src.coinbase then curIn else InputIndexed(src, InputStart(src, x.prev), x.index);
    ScanTag(src, PrevTxHash(x.prev), t1, curIn, curOut, 0, r);
    ScanTag(src, PrevTxIndex(x.index), t2, if src.coinbase then curIn else InputStart(src, x.prev), curOut, 0, r);
    ScanTag(src, TxInScript, t3, curIn', curOut, 0, r);
    var r' := if src.coinbase then r else r.(inputs := r.inputs + [curIn']);
    assert !src.coinbase ==> Ins(src, [x]) == [curIn'];
    ScanTag(src, OtherTag, rest, curIn', curOut, 0, r');
  }

  lemma {:induction false} ScanInputs(src: Source, ins: seq<TxIn>, rest: seq<Tag>, curIn: InCoin, curOut: OutCoin,
                                      r: Report) returns (curIn': InCoin)
    requires r.Report?
    ensures Scan(src, InTags(ins) + rest, curIn, curOut, 0, r) ==
            Scan(src, rest, curIn', curOut, 0, if src.coinbase then r else r.(inputs := r.inputs + Ins(src, ins)))
    decreases ins
  {
    if ins == [] {
      assert InTags(ins) == [] && Ins(src, ins) == [];
      JoinEmpty(rest);
      JoinEmpty(r.inputs);
      curIn' := curIn;
    } else {
      var one := [PrevTxHash(ins[0].prev), PrevTxIndex(ins[0].index), TxInScript, OtherTag];
      JoinAssociates(one, InTags(ins[1..]), rest);
      var cur := ScanOneInput(src, ins[0], InTags(ins[1..]) + rest, curIn, curOut, r);
      var r' := if src.coinbase then r else r.(inputs := r.inputs + Ins(src, [ins[0]]));
      curIn' := ScanInputs(src, ins[1..], rest, cur, curOut, r');
      JoinAssociates(r.inputs, Ins(src, [ins[0]]), Ins(src, ins[1..]));
      InsSplit(src, ins);
    }
  }

  lemma {:induction false} InsSplit(src: Source, ins: seq<TxIn>)
    requires ins != []
    ensures Ins(src, [ins[0]]) + Ins(src, ins[1..]) == Ins(src, ins)
  {
  }

  lemma {:induction false} ScanOutputs(src: Source, outs: seq<nat>, curIn: InCoin, curOut: OutCoin, r: Report)
    requires r.Report?
    requires forall i :: |r.outputs| <= i < |r.outputs| + |outs| ==> i in src.rows
    ensures Scan(src, OutTags(outs) + [OtherTag], curIn, curOut, |r.outputs|, r) ==
            r.(outputs := r.outputs + Outs(src, outs, |r.outputs|))
    decreases outs
  {
    var n := |r.outputs|;
    if outs == [] {
      assert OutTags(outs) + [OtherTag] == [OtherTag] + [];
      ScanTag(src, OtherTag, [], curIn, curOut, n, r);
      assert r.outputs + Outs(src, outs, n) == r.outputs;
    } else {
      var more := OutTags(outs[1..]) + [OtherTag];
      assert OutTags(outs) + [OtherTag] == [OutputValue(outs[0])] + ([OutputScript] + more);
      var cur := OutputCoin(src, outs[0], n, n);
      var r' := r.(outputs := r.outputs + [cur]);
      ScanTag(src, OutputValue(outs[0]), [OutputScript] + more, curIn, curOut, n, r);
      ScanTag(src, OutputScript, more, curIn, cur, n + 1, r);
      ScanOutputs(src, outs[1..], curIn, cur, r');
      assert r'.outputs + Outs(src, outs[1..], n + 1) == r.outputs + Outs(src, outs, n);
    }
  }

  /** The report lists every looked-up input and every output once, in order. */
  lemma {:induction false} ScanReports(src: Source, tx: ChainTx)
    requires forall i :: 0 <= i < |tx.outs| ==> i in src.rows
    ensures Scan(src, Tags(tx), NO_IN, NO_OUT, 0, Report([], []))
         == Report(if src.coinbase then [] else Ins(src, tx.ins), Outs(src, tx.outs, 0))
  {
    var rest := OutTags(tx.outs) + [OtherTag];
    var r := Report([], []);
    assert Tags(tx) == [OtherTag] + (InTags(tx.ins) + rest);
    ScanTag(src, OtherTag, InTags(tx.ins) + rest, NO_IN, NO_OUT, 0, r);
    var cur := ScanInputs(src, tx.ins, rest, NO_IN, NO_OUT, r);
    var r' := if src.coinbase then r else r.(inputs := r.inputs + Ins(src, tx.ins));
    ScanOutputs(src, tx.outs, cur, NO_OUT, r');
  }

  // ---------------------------------------------------------------- what the chain says

  function ChainIn(w: Chain, sub: Subject, x: TxIn): InCoin {
    InCoin(sub.id, x.prev, sub.pos.height, Some(HeightOf(w, x.prev)), x.index,
           if x.prev in w.byId && w.byId[x.prev] in w.txs && x.index < |w.txs[w.byId[x.prev]].outs|
           then Some(w.txs[w.byId[x.prev]].outs[x.index]) else None)
  }

  function ChainOut(w: Chain, sub: Subject, i: nat): OutCoin
    requires i < sub.N()
  {
    if (sub.id, i) in w.spent && w.spent[(sub.id, i)] in w.txs then
      var p := w.spent[(sub.id, i)];
      OutCoin(sub.id, sub.pos.height, i, sub.tx.outs[i], p.height, Some(w.txs[p].id))
    else OutCoin(sub.id, sub.pos.height, i, sub.tx.outs[i], -2, None)
  }

  function ChainReport(w: Chain, sub: Subject): Report {
    Report(seq(sub.M(), k requires 0 <= k < sub.M() => ChainIn(w, sub, Inputs(sub.tx, sub.pos)[k])),
           seq(sub.N(), i requires 0 <= i < sub.N() => ChainOut(w, sub, i)))
  }

  // ---------------------------------------------------------------- what failures leave out

  /** Where the transaction that pair `k` asks for is. */
  function PairPlace(w: Chain, sub: Subject, k: nat): Pos
    requires k < sub.M() + sub.N()
  {
    Found(w, sub.LookupAt(k))
  }

  /** Pair `k` found a transaction and its fetch did not fail. */
  predicate Fetched(w: Chain, sub: Subject, errors: set<nat>, k: nat) {
    k < sub.M() + sub.N() && PairPlace(w, sub, k).height != -1 && 5 + 2 * k !in errors
  }

  /** Some fetch of the transaction at `p` did not fail. */
  ghost predicate Got(w: Chain, sub: Subject, errors: set<nat>, p: Pos) {
    p == sub.pos || exists k: nat :: Fetched(w, sub, errors, k) && PairPlace(w, sub, k) == p
  }

  /** Some fetch for an input that spends `prev` did not fail. */
  ghost predicate GotInput(w: Chain, sub: Subject, errors: set<nat>, prev: Id) {
    exists k: nat :: Fetched(w, sub, errors, k) && k < sub.M() && Inputs(sub.tx, sub.pos)[k].prev == prev
  }

  /** What the chain says, without the value of an input all of whose fetches failed. */
  ghost function ReportedIn(w: Chain, sub: Subject, errors: set<nat>, x: TxIn): InCoin {
    var c := ChainIn(w, sub, x);
    if GotInput(w, sub, errors, x.prev) then c else c.(value := None)
  }

  /** What the chain says, without the id of a spender all of whose fetches failed. */
  ghost function ReportedOut(w: Chain, sub: Subject, errors: set<nat>, i: nat): OutCoin
    requires i < sub.N()
  {
    var c := ChainOut(w, sub, i);
    if (sub.id, i) in w.spent && !Got(w, sub, errors, w.spent[(sub.id, i)]) then c.(spentTxid := None) else c
  }

  ghost function ReportAfter(w: Chain, sub: Subject, errors: set<nat>): Report {
    Report(seq(sub.M(), k requires 0 <= k < sub.M() => ReportedIn(w, sub, errors, Inputs(sub.tx, sub.pos)[k])),
           seq(sub.N(), i requires 0 <= i < sub.N() => ReportedOut(w, sub, errors, i)))
  }

  /** The transaction does not spend itself, nor a transaction that spends it. */
  ghost predicate NoCycle(w: Chain, sub: Subject) {
    forall k :: 0 <= k < sub.M() ==>
      && Inputs(sub.tx, sub.pos)[k].prev != sub.id
      && forall i :: 0 <= i < sub.N() && (sub.id, i) in w.spent && w.spent[(sub.id, i)] in w.txs ==>
           w.txs[w.spent[(sub.id, i)]].id != Inputs(sub.tx, sub.pos)[k].prev
  }

  /** Once the search has finished every pair is done: the lookup, and the fetch unless nothing was found. */
  lemma {:induction false} FinishedPairs(w: Chain, id: Id, s: Search, k: nat)
    requires ValidChain(w) && Loaded(w, id, s) && SearchFinished(s) && k < SubjectOf(w, id).M() + SubjectOf(w, id).N()
    ensures s.jobs[4 + 2 * k].finished
    ensures s.jobs[5 + 2 * k].finished <==> Found(w, s.jobs[4 + 2 * k]).height != -1
  {
    assert PairOk(w, SubjectOf(w, id), s.jobs, k);
    if Found(w, s.jobs[4 + 2 * k]).height != -1 { PlaceIsPositive(w, s.jobs[4 + 2 * k]); }
    assert !InFlight(s.jobs[4 + 2 * k]) && !Startable(s.jobs[4 + 2 * k]);
    assert !InFlight(s.jobs[5 + 2 * k]) && !Startable(s.jobs[5 + 2 * k]);
  }

  lemma {:induction false} AnswersAreChainTxs(w: Chain, id: Id, s: Search, a: Answer)
    requires ValidChain(w) && Loaded(w, id, s) && a in s.answer
    ensures a.pos in w.txs && a.txid == Some(w.txs[a.pos].id)
  {
    var j :| 0 <= j < |s.answer| && s.answer[j] == a;
    if j > 0 { assert AnswerOk(w, SubjectOf(w, id), s.jobs, s.answer[j]); }
  }

  lemma {:induction false} FinishedFetchIsDelivered(w: Chain, sub: Subject, jobs: seq<Job>, answer: seq<Answer>,
                                                    errors: set<nat>, i: nat) returns (j: nat)
    requires |jobs| == 4 + 2 * (sub.M() + sub.N()) && AnswersOk(w, sub, jobs, answer, errors)
    requires 5 <= i < |jobs| && i % 2 == 1 && jobs[i].finished && i !in errors
    ensures j < |answer| && answer[j].pos == PlaceOf(jobs[i])
  {
    assert FetchAnswered(jobs, answer, errors, i);
    j :| 1 <= j < |answer| && answer[j].jobId == i;
    assert AnswerOk(w, sub, jobs, answer[j]);
  }

  /** Once the search has finished, a fetch that had a place and did not fail has delivered. */
  lemma {:induction false} FetchedIsDelivered(w: Chain, id: Id, s: Search, k: nat) returns (j: nat)
    requires ValidChain(w) && Loaded(w, id, s) && SearchFinished(s) && Fetched(w, SubjectOf(w, id), s.errors, k)
    ensures j < |s.answer| && s.answer[j].pos == PairPlace(w, SubjectOf(w, id), k)
  {
    var sub := SubjectOf(w, id);
    assert PairOk(w, sub, s.jobs, k);
    assert Found(w, s.jobs[4 + 2 * k]) == PairPlace(w, sub, k);
    FinishedPairs(w, id, s, k);
    j := FinishedFetchIsDelivered(w, sub, s.jobs, s.answer, s.errors, 5 + 2 * k);
  }

  /** A delivered transaction other than the first came from the fetch of a pair. */
  lemma {:induction false} DeliveredIsFetched(w: Chain, id: Id, s: Search, j: nat) returns (k: nat)
    requires ValidChain(w) && Loaded(w, id, s) && 1 <= j < |s.answer|
    ensures Fetched(w, SubjectOf(w, id), s.errors, k) && PairPlace(w, SubjectOf(w, id), k) == s.answer[j].pos
    ensures s.answer[j].jobId == 5 + 2 * k
  {
    var sub := SubjectOf(w, id);
    assert AnswerOk(w, sub, s.jobs, s.answer[j]);
    k := (s.answer[j].jobId - 5) / 2;
    assert s.answer[j].jobId == 5 + 2 * k;
    assert PairOk(w, sub, s.jobs, k);
    assert Found(w, s.jobs[4 + 2 * k]) == PairPlace(w, sub, k);
  }

  /** Once the search has finished, exactly the transactions with a fetch that did not fail have been delivered. */
  lemma {:induction false} DeliveredIff(w: Chain, id: Id, s: Search, p: Pos)
    requires ValidChain(w) && Loaded(w, id, s) && SearchFinished(s)
    ensures FirstAt(s.answer, p).Some? <==> Got(w, SubjectOf(w, id), s.errors, p)
  {
    var sub := SubjectOf(w, id);
    FirstAtFinds(s.answer, p);
    if FirstAt(s.answer, p).Some? {
      var j :| 0 <= j < |s.answer| && s.answer[j].pos == p;
      if j > 0 {
        var k := DeliveredIsFetched(w, id, s, j);
        assert Fetched(w, sub, s.errors, k) && PairPlace(w, sub, k) == p;
      }
    }
    if Got(w, sub, s.errors, p) && p != sub.pos {
      var k :| Fetched(w, sub, s.errors, k) && PairPlace(w, sub, k) == p;
      var j := FetchedIsDelivered(w, id, s, k);
    }
    if p == sub.pos { assert s.answer[0].pos == p; }
  }

  /** Where the transaction fetched by pair `n` was found. */
  lemma {:induction false} FetchedFrom(w: Chain, sub: Subject, jobs: seq<Job>, n: nat)
    requires n < sub.M() + sub.N() && 5 + 2 * n < |jobs| && PairOk(w, sub, jobs, n) && jobs[5 + 2 * n].finished
    ensures n < sub.M() ==>
            Inputs(sub.tx, sub.pos)[n].prev in w.byId
            && w.byId[Inputs(sub.tx, sub.pos)[n].prev] == PlaceOf(jobs[5 + 2 * n])
    ensures n >= sub.M() ==>
            (sub.id, n - sub.M()) in w.spent && w.spent[(sub.id, n - sub.M())] == PlaceOf(jobs[5 + 2 * n])
  {
  }

  /** The row of output `i` at the end, and what the indexer knows about it. */
  lemma {:induction false} RowAtTheEnd(w: Chain, id: Id, s: Search, i: nat)
    requires ValidChain(w) && Loaded(w, id, s) && SearchFinished(s) && i < SubjectOf(w, id).N()
    ensures var sub := SubjectOf(w, id);
            var p := Found(w, s.jobs[4 + 2 * (sub.M() + i)]);
            && s.txRefs[sub.pos][i] == Resolved(p)
            && p == if (id, i) in w.spent then w.spent[(id, i)] else NOT_FOUND
  {
    var sub := SubjectOf(w, id);
    var k := sub.M() + i;
    FinishedPairs(w, id, s, k);
    assert PairOk(w, sub, s.jobs, k);
    assert RowAt(w, sub, s.jobs, s.txRefs, i);
  }

  ghost predicate AllOnChain(w: Chain, answer: seq<Answer>) {
    forall j :: 0 <= j < |answer| ==> answer[j].pos in w.txs && answer[j].txid == Some(w.txs[answer[j].pos].id)
  }

  lemma {:induction false} LoadedAllOnChain(w: Chain, id: Id, s: Search)
    requires ValidChain(w) && Loaded(w, id, s)
    ensures AllOnChain(w, s.answer)
  {
    forall j | 0 <= j < |s.answer|
      ensures s.answer[j].pos in w.txs && s.answer[j].txid == Some(w.txs[s.answer[j].pos].id)
    {
      AnswersAreChainTxs(w, id, s, s.answer[j]);
    }
  }

  lemma {:induction false} FirstAtOnChain(w: Chain, answer: seq<Answer>, p: Pos)
    requires ValidChain(w) && AllOnChain(w, answer)
    ensures FirstAt(answer, p).Some? ==> p in w.txs && Positive(p) && FirstAt(answer, p).value.txid == Some(w.txs[p].id)
  {
    FirstAtFinds(answer, p);
  }

  lemma {:induction false} OutputIsReported(w: Chain, id: Id, s: Search, i: nat)
    requires ValidChain(w) && Loaded(w, id, s) && SearchFinished(s) && i < SubjectOf(w, id).N()
    ensures var sub := SubjectOf(w, id);
            OutputCoin(SourceOf(s, s.txRefs[sub.pos]), sub.tx.outs[i], i, i) == ReportedOut(w, sub, s.errors, i)
  {
    var sub := SubjectOf(w, id);
    var row := s.txRefs[sub.pos][i];
    RowAtTheEnd(w, id, s, i);
    LoadedAllOnChain(w, id, s);
    FirstAtOnChain(w, s.answer, row);
    DeliveredIff(w, id, s, row);
    if (id, i) in w.spent { assert w.spent[(id, i)] in w.txs && Positive(w.spent[(id, i)]); }
  }

  /** An answer that carries the id of a previous transaction carries its outputs. */
  lemma {:induction false} AnswerForInput(w: Chain, id: Id, s: Search, a: Answer, prev: Id, k: nat)
    requires ValidChain(w) && Loaded(w, id, s) && NoCycle(w, SubjectOf(w, id)) && a in s.answer && a.txid == Some(prev)
    requires k < SubjectOf(w, id).M() && prev == Inputs(SubjectOf(w, id).tx, SubjectOf(w, id).pos)[k].prev
    ensures prev in w.byId && a.outputs == w.txs[w.byId[prev]].outs
  {
    var j :| 0 <= j < |s.answer| && s.answer[j] == a;
    assert j > 0;
    AnswersAreChainTxs(w, id, s, a);
    InputAnswerHasOutputs(w, SubjectOf(w, id), s.jobs, a, prev, k);
  }

  lemma {:induction false} InputAnswerHasOutputs(w: Chain, sub: Subject, jobs: seq<Job>, a: Answer, prev: Id, k: nat)
    requires ValidChain(w) && JobsOk(w, sub, jobs) && AnswerOk(w, sub, jobs, a) && NoCycle(w, sub)
             && a.txid == Some(prev)
    requires k < sub.M() && prev == Inputs(sub.tx, sub.pos)[k].prev
    ensures prev in w.byId && a.outputs == w.txs[w.byId[prev]].outs
    ensures var n := (a.jobId - 5) / 2; n < sub.M() && Inputs(sub.tx, sub.pos)[n].prev == prev
  {
    var n := (a.jobId - 5) / 2;
    assert a.jobId == 5 + 2 * n;
    assert PairOk(w, sub, jobs, n);
    FetchedFrom(w, sub, jobs, n);
    assert n < sub.M();
    assert w.txs[a.pos].id == Inputs(sub.tx, sub.pos)[n].prev == prev;
  }

  lemma {:induction false} DeliveredInput(w: Chain, id: Id, s: Search, k: nat, j: nat)
    requires ValidChain(w) && Loaded(w, id, s) && NoCycle(w, SubjectOf(w, id)) && k < SubjectOf(w, id).M()
             && j < |s.answer|
    requires s.answer[j].txid == Some(Inputs(SubjectOf(w, id).tx, SubjectOf(w, id).pos)[k].prev)
    ensures GotInput(w, SubjectOf(w, id), s.errors, Inputs(SubjectOf(w, id).tx, SubjectOf(w, id).pos)[k].prev)
  {
    var sub := SubjectOf(w, id);
    assert j > 0;
    var n := DeliveredIsFetched(w, id, s, j);
    InputAnswerHasOutputs(w, sub, s.jobs, s.answer[j], Inputs(sub.tx, sub.pos)[k].prev, k);
    assert Fetched(w, sub, s.errors, n) && n < sub.M();
  }

  lemma {:induction false} FetchedInput(w: Chain, id: Id, s: Search, n: nat) returns (j: nat)
    requires ValidChain(w) && Loaded(w, id, s) && SearchFinished(s) && n < SubjectOf(w, id).M()
    requires Fetched(w, SubjectOf(w, id), s.errors, n)
    ensures j < |s.answer| && s.answer[j].txid == Some(Inputs(SubjectOf(w, id).tx, SubjectOf(w, id).pos)[n].prev)
  {
    j := FetchedIsDelivered(w, id, s, n);
    AnswersAreChainTxs(w, id, s, s.answer[j]);
  }

  /** Once the search has finished, a previous transaction has been delivered exactly when a fetch for one of the
      inputs that spend it did not fail. */
  lemma {:induction false} InputDeliveredIff(w: Chain, id: Id, s: Search, k: nat)
    requires ValidChain(w) && Loaded(w, id, s) && SearchFinished(s) && NoCycle(w, SubjectOf(w, id))
             && k < SubjectOf(w, id).M()
    ensures var sub := SubjectOf(w, id);
            var prev := Inputs(sub.tx, sub.pos)[k].prev;
            FirstWithId(s.answer, prev).Some? <==> GotInput(w, sub, s.errors, prev)
  {
    var sub := SubjectOf(w, id);
    var prev := Inputs(sub.tx, sub.pos)[k].prev;
    FirstWithIdFinds(s.answer, prev);
    if FirstWithId(s.answer, prev).Some? {
      var j :| 0 <= j < |s.answer| && s.answer[j].txid == Some(prev);
      DeliveredInput(w, id, s, k, j);
    }
    if GotInput(w, sub, s.errors, prev) {
      var n: nat :| Fetched(w, sub, s.errors, n) && n < sub.M() && Inputs(sub.tx, sub.pos)[n].prev == prev;
      var j := FetchedInput(w, id, s, n);
    }
  }

  lemma {:induction false} InputIsReported(w: Chain, id: Id, s: Search, k: nat)
    requires ValidChain(w) && Loaded(w, id, s) && SearchFinished(s) && NoCycle(w, SubjectOf(w, id))
             && k < SubjectOf(w, id).M()
    ensures var sub := SubjectOf(w, id);
            var x := Inputs(sub.tx, sub.pos)[k];
            var src := SourceOf(s, s.txRefs[sub.pos]);
            InputIndexed(src, InputStart(src, x.prev), x.index) == ReportedIn(w, sub, s.errors, x)
  {
    var sub := SubjectOf(w, id);
    var x := Inputs(sub.tx, sub.pos)[k];
    assert x.prev in s.blockHeights && s.blockHeights[x.prev] == HeightOf(w, x.prev) by { FinishedPairs(w, id, s, k); }
    InputDeliveredIff(w, id, s, k);
    FirstWithIdFinds(s.answer, x.prev);
    var found := FirstWithId(s.answer, x.prev);
    if found.Some? {
      AnswerForInput(w, id, s, found.value, x.prev, k);
      PlaceInChain(w, x.prev);
    }
  }

  lemma {:induction false} PlaceInChain(w: Chain, id: Id)
    requires ValidChain(w) && id in w.byId
    ensures w.byId[id] in w.txs && w.byId[id].height > 0
  {
  }

  lemma {:induction false} LoadedReport(w: Chain, id: Id, s: Search)
    requires ValidChain(w) && Loaded(w, id, s) && SearchFinished(s) && NoCycle(w, SubjectOf(w, id))
    ensures CoinsReport(s) == ReportAfter(w, SubjectOf(w, id), s.errors)
  {
    var sub := SubjectOf(w, id);
    var src := SourceOf(s, s.txRefs[sub.pos]);
    assert s.txRefs.Keys == {sub.pos};
    assert |s.txRefs| == |s.txRefs.Keys| == 1;
    ScanReports(src, sub.tx);
    var r := ReportAfter(w, sub, s.errors);
    forall i | 0 <= i < sub.N() ensures Outs(src, sub.tx.outs, 0)[i] == r.outputs[i] { OutputIsReported(w, id, s, i); }
    assert Outs(src, sub.tx.outs, 0) == r.outputs;
    forall k | 0 <= k < sub.M() ensures Ins(src, sub.tx.ins)[k] == r.inputs[k] { InputIsReported(w, id, s, k); }
    assert (if src.coinbase then [] else Ins(src, sub.tx.ins)) == r.inputs;
  }

  /** A finished search has delivered nothing exactly when the indexer does not know the transaction or its fetch
      failed; the answer then takes the first of no transactions. */
  lemma {:induction false} NoAnswerIff(w: Chain, id: Id, s: Search)
    requires ValidChain(w) && CoinsInv(w, id, s) && SearchFinished(s)
    ensures s.answer == [] <==> id !in w.byId || 3 in s.errors
    ensures s.answer != [] <==> Loaded(w, id, s)
  {
    assert |s.jobs| > 0 ==> !Startable(s.jobs[0]);
    if Looking(w, id, s) {
      assert !InFlight(s.jobs[2]) && !Startable(s.jobs[2]);
      assert !InFlight(s.jobs[3]) && !Startable(s.jobs[3]);
      if id in w.byId { PlaceInChain(w, id); PlaceIsPositive(w, s.jobs[2]); }
    }
  }

  /** The answer after every run that finishes, whatever failed in it: nothing, if the transaction was not delivered;
      and otherwise what the chain says about every input and output, but for the values and spenders whose fetches
      failed. */
  lemma {:induction false} CoinsReportAfterAnyRun(w: Chain, id: Id, events: seq<Event>)
    requires ValidChain(w) && ValidRun(w, CoinsRequest(id), events) && (id in w.byId ==> NoCycle(w, SubjectOf(w, id)))
    requires Run(w, CoinsRequest(id), events).Ok? ==> SearchFinished(Run(w, CoinsRequest(id), events).s)
    ensures Run(w, CoinsRequest(id), events).Ok?
    ensures var s := Run(w, CoinsRequest(id), events).s;
            CoinsReport(s) ==
            if id !in w.byId || 3 in s.errors then Failed else ReportAfter(w, SubjectOf(w, id), s.errors)
  {
    CoinsNeverCrash(w, id, events);
    var s := Run(w, CoinsRequest(id), events).s;
    NoAnswerIff(w, id, s);
    if s.answer != [] { LoadedReport(w, id, s); }
  }

  /** Output `i` of the report: its position, its value and the resolved height; the spender is missing exactly when the
      output is unspent or all fetches of the spender failed. */
  ghost predicate OutputOmits(w: Chain, sub: Subject, errors: set<nat>, i: nat, out: OutCoin)
    requires i < sub.N()
  {
    && out.mintIndex == i && out.value == sub.tx.outs[i]
    && out.mintTxid == sub.id && out.mintHeight == sub.pos.height
    && out.spentHeight == (if (sub.id, i) in w.spent then w.spent[(sub.id, i)].height else -2)
    && (out.spentTxid.None? <==> (sub.id, i) !in w.spent || !Got(w, sub, errors, w.spent[(sub.id, i)]))
  }

  /** Input `k` of the report: what it spends and the resolved height, -1 if that is not known; the value is missing
      exactly when the chain has none or all fetches for it failed. */
  ghost predicate InputOmits(w: Chain, sub: Subject, errors: set<nat>, k: nat, coin: InCoin)
    requires k < |sub.tx.ins|
  {
    var x := sub.tx.ins[k];
    && coin.spentTxid == sub.id && coin.spentHeight == sub.pos.height
    && coin.mintTxid == x.prev && coin.mintIndex == x.index
    && coin.mintHeight == Some(if x.prev in w.byId then w.byId[x.prev].height else -1)
    && (coin.value.None? <==> ChainIn(w, sub, x).value.None? || !GotInput(w, sub, errors, x.prev))
  }

  /** After every run that finishes and has delivered the transaction, whatever else failed, the report has every input
      and every output once and in order, and lacks exactly the values and spenders whose fetches failed. */
  lemma {:induction false} ReportOmitsExactlyTheFailed(w: Chain, id: Id, events: seq<Event>)
    requires ValidChain(w) && ValidRun(w, CoinsRequest(id), events) && id in w.byId && NoCycle(w, SubjectOf(w, id))
    requires Run(w, CoinsRequest(id), events).Ok? ==>
               SearchFinished(Run(w, CoinsRequest(id), events).s) && 3 !in Run(w, CoinsRequest(id), events).s.errors
    ensures Run(w, CoinsRequest(id), events).Ok? && CoinsReport(Run(w, CoinsRequest(id), events).s).Report?
    ensures var s := Run(w, CoinsRequest(id), events).s;
            var sub, r := SubjectOf(w, id), CoinsReport(s);
            && |r.inputs| == (if 0 < sub.pos.offset < 100 then 0 else |sub.tx.ins|) && |r.outputs| == |sub.tx.outs|
            && (forall i :: 0 <= i < |r.outputs| ==> OutputOmits(w, sub, s.errors, i, r.outputs[i]))
            && (forall k :: 0 <= k < |r.inputs| ==> InputOmits(w, sub, s.errors, k, r.inputs[k]))
  {
    CoinsReportAfterAnyRun(w, id, events);
    var s := Run(w, CoinsRequest(id), events).s;
    var sub := SubjectOf(w, id);
    var r := ReportAfter(w, sub, s.errors);
    forall i | 0 <= i < sub.N() ensures OutputOmits(w, sub, s.errors, i, r.outputs[i]) {
      assert r.outputs[i] == ReportedOut(w, sub, s.errors, i);
    }
    forall k | 0 <= k < sub.M() ensures InputOmits(w, sub, s.errors, k, r.inputs[k]) {
      assert r.inputs[k] == ReportedIn(w, sub, s.errors, Inputs(sub.tx, sub.pos)[k]);
    }
  }

  lemma {:induction false} NothingIsOmitted(w: Chain, sub: Subject)
    requires ValidChain(w)
    ensures ReportAfter(w, sub, {}) == ChainReport(w, sub)
  {
    var r, c := ReportAfter(w, sub, {}), ChainReport(w, sub);
    forall k | 0 <= k < sub.M() ensures r.inputs[k] == c.inputs[k] {
      var x := Inputs(sub.tx, sub.pos)[k];
      if x.prev in w.byId {
        assert sub.LookupAt(k).data == Some(x.prev);
        assert Fetched(w, sub, {}, k);
      }
    }
    forall i | 0 <= i < sub.N() ensures r.outputs[i] == c.outputs[i] {
      if (sub.id, i) in w.spent {
        assert PairPlace(w, sub, sub.M() + i) == w.spent[(sub.id, i)];
        assert Fetched(w, sub, {}, sub.M() + i);
      }
    }
    assert r.inputs == c.inputs && r.outputs == c.outputs;
  }

  /** However the answers interleaved, if none of them failed, the report is what the chain says about the
      transaction. */
  lemma {:induction false} CoinsReportIsTheChains(w: Chain, id: Id, events: seq<Event>)
    requires ValidChain(w) && ValidRun(w, CoinsRequest(id), events) && id in w.byId && NoCycle(w, SubjectOf(w, id))
    requires Run(w, CoinsRequest(id), events).Ok? ==>
               SearchFinished(Run(w, CoinsRequest(id), events).s) && Run(w, CoinsRequest(id), events).s.errors == {}
    ensures Run(w, CoinsRequest(id), events).Ok?
    ensures CoinsReport(Run(w, CoinsRequest(id), events).s) == ChainReport(w, SubjectOf(w, id))
  {
    CoinsReportAfterAnyRun(w, id, events);
    NothingIsOmitted(w, SubjectOf(w, id));
  }
}
