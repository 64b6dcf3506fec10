/**
 A request for the coins of a transaction (TxForTxIdCoins): every run, in whatever order the answers come,
 keeps the job list in a known shape, never fails an assertion, and ends in an answer that is
 read off the chain.
 */
module BitcoreCoins {
  import opened BitcoreSearch
  import opened Options
  import opened Sequences

  // ---------------------------------------------------------------- the jobs of a transaction

  /** One lookup and one waiting fetch per input. */
  function InPairs(ins: seq<TxIn>, base: nat): seq<Job> {
    if ins == [] then []
    else [LookupTx(ins[0].prev, base + 1), Fetch(IncludeOutputs)] + InPairs(ins[1..], base + 2)
  }

  /** One spent-lookup and one waiting fetch per output from `i` on. */
  function OutPairs(id: Id, p: Pos, i: nat, n: nat, base: nat): seq<Job>
    decreases n - i
  {
    if i >= n then []
    else [LookupSpent(id, i, p, base + 1), Fetch(IncludeTxId)] + OutPairs(id, p, i + 1, n, base + 2)
  }

  lemma {:induction false} InPairsAt(ins: seq<TxIn>, base: nat, k: nat)
    requires k <= |ins|
    ensures |InPairs(ins, base)| == 2 * |ins|
    ensures k < |ins| ==> InPairs(ins, base)[2 * k] == LookupTx(ins[k].prev, base + 2 * k + 1)
    ensures k < |ins| ==> InPairs(ins, base)[2 * k + 1] == Fetch(IncludeOutputs)
  {
    if ins != [] { InPairsAt(ins[1..], base + 2, if k == 0 then 0 else k - 1); }
  }

  lemma {:induction false} OutPairsAt(id: Id, p: Pos, i: nat, n: nat, base: nat, k: nat)
    requires i <= i + k <= n
    ensures |OutPairs(id, p, i, n, base)| == 2 * (n - i)
    ensures i + k < n ==> OutPairs(id, p, i, n, base)[2 * k] == LookupSpent(id, i + k, p, base + 2 * k + 1)
    ensures i + k < n ==> OutPairs(id, p, i, n, base)[2 * k + 1] == Fetch(IncludeTxId)
    decreases n - i
  {
    if i < n { OutPairsAt(id, p, i + 1, n, base + 2, if k == 0 then 0 else k - 1); }
  }

  /** The inputs of a coinbase are not looked up. */
  function Inputs(tx: ChainTx, p: Pos): seq<TxIn> { if 0 < p.offset < 100 then [] else tx.ins }

  lemma {:induction false} ScanSkips(t: Answer, tag: Tag, rest: seq<Tag>, jobs: seq<Job>, i: nat)
    requires t.txid.Some? && !tag.OutputValue? && (tag.PrevTxHash? ==> t.Coinbase())
    ensures ScanJobs(true, t, {}, [tag] + rest, jobs, i) == ScanJobs(true, t, {}, rest, jobs, i)
  {
    assert ([tag] + rest)[1..] == rest;
  }

  lemma {:induction false} ScanPushes(t: Answer, tag: Tag, rest: seq<Tag>, jobs: seq<Job>, i: nat)
    requires t.txid.Some?
    ensures tag.PrevTxHash? && !t.Coinbase() ==>
              ScanJobs(true, t, {}, [tag] + rest, jobs, i) ==
              ScanJobs(true, t, {}, rest, jobs + [LookupTx(tag.id, |jobs| + 1), Fetch(IncludeOutputs)], i)
    ensures tag.OutputValue? ==>
              ScanJobs(true, t, {}, [tag] + rest, jobs, i) ==
              ScanJobs(true, t, {}, rest,
                       jobs + [LookupSpent(t.txid.value, i, t.pos, |jobs| + 1), Fetch(IncludeTxId)], i + 1)
  {
    assert ([tag] + rest)[1..] == rest;
  }

  lemma {:induction false} ScanOneIn(t: Answer, x: TxIn, more: seq<Tag>, jobs: seq<Job>)
    requires t.txid.Some?
    ensures ScanJobs(true, t, {}, [PrevTxHash(x.prev), PrevTxIndex(x.index), TxInScript, OtherTag] + more, jobs, 0) ==
            ScanJobs(true, t, {}, more, if t.Coinbase() then jobs else jobs + InPairs([x], |jobs|), 0)
  {
    var tail3 := [OtherTag] + more;
    var tail2 := [TxInScript] + tail3;
    var tail1 := [PrevTxIndex(x.index)] + tail2;
    assert [PrevTxHash(x.prev), PrevTxIndex(x.index), TxInScript, OtherTag] + more == [PrevTxHash(x.prev)] + tail1;
    assert InPairs([x], |jobs|) == [LookupTx(x.prev, |jobs| + 1), Fetch(IncludeOutputs)] by { assert [x][1..] == []; }
    var jobs' := if t.Coinbase() then jobs else jobs + InPairs([x], |jobs|);
    if t.Coinbase() {
      ScanSkips(t, PrevTxHash(x.prev), tail1, jobs, 0);
    } else {
      ScanPushes(t, PrevTxHash(x.prev), tail1, jobs, 0);
    }
    ScanSkips(t, PrevTxIndex(x.index), tail2, jobs', 0);
    ScanSkips(t, TxInScript, tail3, jobs', 0);
    ScanSkips(t, OtherTag, more, jobs', 0);
  }

  lemma {:induction false} ScanIns(t: Answer, ins: seq<TxIn>, rest: seq<Tag>, jobs: seq<Job>)
    requires t.txid.Some?
    ensures ScanJobs(true, t, {}, InTags(ins) + rest, jobs, 0) ==
            ScanJobs(true, t, {}, rest, if t.Coinbase() then jobs else jobs + InPairs(ins, |jobs|), 0)
    decreases ins
  {
    if ins == [] {
      JoinEmpty(rest);
      JoinEmpty(jobs);
    } else {
      var more := InTags(ins[1..]) + rest;
      var one := [PrevTxHash(ins[0].prev), PrevTxIndex(ins[0].index), TxInScript, OtherTag];
      JoinAssociates(one, InTags(ins[1..]), rest);
      ScanOneIn(t, ins[0], more, jobs);
      if t.Coinbase() {
        ScanIns(t, ins[1..], rest, jobs);
      } else {
        var pair := InPairs([ins[0]], |jobs|);
        ScanIns(t, ins[1..], rest, jobs + pair);
        InPairsSplit(ins, |jobs|);
        JoinAssociates(jobs, pair, InPairs(ins[1..], |jobs| + 2));
      }
    }
  }

  lemma {:induction false} InPairsSplit(ins: seq<TxIn>, base: nat)
    requires ins != []
    ensures InPairs(ins, base) == InPairs([ins[0]], base) + InPairs(ins[1..], base + 2)
    ensures |InPairs([ins[0]], base)| == 2
  {
    assert [ins[0]][1..] == [];
  }

  lemma {:induction false} ScanOuts(t: Answer, outs: seq<nat>, i: nat, jobs: seq<Job>)
    requires t.txid.Some?
    ensures ScanJobs(true, t, {}, OutTags(outs) + [OtherTag], jobs, i) ==
            jobs + OutPairs(t.txid.value, t.pos, i, i + |outs|, |jobs|)
    decreases outs
  {
    if outs == [] {
      assert OutTags(outs) + [OtherTag] == [OtherTag] + [];
      ScanSkips(t, OtherTag, [], jobs, i);
      JoinEmpty(jobs);
    } else {
      var more := OutTags(outs[1..]) + [OtherTag];
      assert OutTags(outs) + [OtherTag] == [OutputValue(outs[0])] + ([OutputScript] + more);
      var pair := [LookupSpent(t.txid.value, i, t.pos, |jobs| + 1), Fetch(IncludeTxId)];
      ScanPushes(t, OutputValue(outs[0]), [OutputScript] + more, jobs, i);
      ScanSkips(t, OutputScript, more, jobs + pair, i + 1);
      ScanOuts(t, outs[1..], i + 1, jobs + pair);
      JoinAssociates(jobs, pair, OutPairs(t.txid.value, t.pos, i + 1, i + |outs|, |jobs| + 2));
    }
  }

  function TxPairs(tx: ChainTx, id: Id, p: Pos, base: nat): seq<Job> {
    InPairs(Inputs(tx, p), base) + OutPairs(id, p, 0, |tx.outs|, base + 2 * |Inputs(tx, p)|)
  }

  /** Scanning a transaction's tags appends one pair per input and one per output. */
  lemma {:induction false} TagsRegroup(tx: ChainTx)
    ensures Tags(tx) == [OtherTag] + (InTags(tx.ins) + (OutTags(tx.outs) + [OtherTag]))
  {
    JoinAssociates([OtherTag] + InTags(tx.ins), OutTags(tx.outs), [OtherTag]);
    JoinAssociates([OtherTag], InTags(tx.ins), OutTags(tx.outs) + [OtherTag]);
  }

  lemma {:induction false} ScanAppendsPairs(t: Answer, tx: ChainTx, jobs: seq<Job>)
    requires t.txid.Some?
    ensures ScanJobs(true, t, {}, Tags(tx), jobs, 0) == jobs + TxPairs(tx, t.txid.value, t.pos, |jobs|)
  {
    var rest := OutTags(tx.outs) + [OtherTag];
    TagsRegroup(tx);
    ScanSkips(t, OtherTag, InTags(tx.ins) + rest, jobs, 0);
    ScanIns(t, tx.ins, rest, jobs);
    var ins := Inputs(tx, t.pos);
    var inPairs := InPairs(ins, |jobs|);
    InPairsAt(ins, |jobs|, 0);
    assert t.Coinbase() ==> jobs + inPairs == jobs;
    ScanOuts(t, tx.outs, 0, jobs + inPairs);
    JoinAssociates(jobs, inPairs, OutPairs(t.txid.value, t.pos, 0, |tx.outs|, |jobs| + 2 * |ins|));
  }

  // ---------------------------------------------------------------- invariant

  /** The transaction asked about, with its place. */
  datatype Subject = Subject(id: Id, pos: Pos, tx: ChainTx) {
    function M(): nat { |Inputs(tx, pos)| }
    function N(): nat { |tx.outs| }
    function LookupAt(k: nat): Job
      requires k < M() + N()
    {
      if k < M() then LookupTx(Inputs(tx, pos)[k].prev, 5 + 2 * k) else LookupSpent(id, k - M(), pos, 5 + 2 * k)
    }
    function FilterAt(k: nat): Filter { if k < M() then IncludeOutputs else IncludeTxId }
  }

  function SubjectOf(w: Chain, id: Id): Subject
    requires id in w.byId && w.byId[id] in w.txs
  {
    Subject(id, w.byId[id], w.txs[w.byId[id]])
  }

  /** `job` is `template` as far as the request itself defined it. */
  predicate Like(job: Job, template: Job) {
    job.(started := false, finished := false) == template && (job.finished ==> job.started)
  }

  /** The fetch waits for the lookup, and has its place once the lookup found one. */
  predicate Linked(w: Chain, lookup: Job, fetch: Job, filter: Filter) {
    && fetch.kind.FetchTx? && fetch.filter == filter && fetch.nextJobId == -1 && fetch.nextJobId2 == -1
    && (fetch.finished ==> fetch.started)
    && if lookup.finished && Found(w, lookup).height != -1
       then PlaceOf(fetch) == Found(w, lookup) && fetch.data == lookup.data
       else !fetch.started && PlaceOf(fetch) == Pos(0, 0) && fetch.data.None?
  }

  predicate PairOk(w: Chain, sub: Subject, jobs: seq<Job>, k: nat)
    requires k < sub.M() + sub.N() && 5 + 2 * k < |jobs|
  {
    Like(jobs[4 + 2 * k], sub.LookupAt(k)) && Linked(w, jobs[4 + 2 * k], jobs[5 + 2 * k], sub.FilterAt(k))
  }

  function FirstLookup(id: Id): Job {
    NewJob(LookupTxById).(data := Some(id), nextJobId := 1, nextJobId2 := 3)
  }

  /** The four jobs that precede the pairs: the request's own two, and the two the engine replaced the first by. */
  predicate HeadOk(w: Chain, id: Id, jobs: seq<Job>)
    requires |jobs| >= 4
  {
    && jobs[0] == CoinsRequest(id).jobs[0].(started := true, finished := true)
    && jobs[1].kind.FetchBlockHeader? && (jobs[1].finished ==> jobs[1].started)
    && Like(jobs[2], FirstLookup(id))
    && Linked(w, jobs[2], jobs[3], IncludeFullTransactionData)
  }

  ghost predicate JobsOk(w: Chain, sub: Subject, jobs: seq<Job>) {
    && |jobs| == 4 + 2 * (sub.M() + sub.N())
    && HeadOk(w, sub.id, jobs) && jobs[3].finished
    && forall k :: 0 <= k < sub.M() + sub.N() ==> PairOk(w, sub, jobs, k)
  }

  function RowOf(w: Chain, lookup: Job): Pos { if lookup.finished then Resolved(Found(w, lookup)) else UNKNOWN }

  /** The row of output `i` is what its lookup found, or unknown. */
  predicate RowAt(w: Chain, sub: Subject, jobs: seq<Job>, txRefs: TxRefs, i: int) {
    && 0 <= i < sub.N() && 4 + 2 * (sub.M() + i) < |jobs| && sub.pos in txRefs && i in txRefs[sub.pos]
    && txRefs[sub.pos][i] == RowOf(w, jobs[4 + 2 * (sub.M() + i)])
  }

  ghost predicate RowsOk(w: Chain, sub: Subject, jobs: seq<Job>, txRefs: TxRefs)
    requires |jobs| == 4 + 2 * (sub.M() + sub.N())
  {
    && txRefs.Keys == {sub.pos}
    && (forall i :: i in txRefs[sub.pos] <==> 0 <= i < sub.N())
    && forall i :: 0 <= i < sub.N() ==> RowAt(w, sub, jobs, txRefs, i)
  }

  /** Answer `a` came from the waiting fetch of some pair. */
  predicate AnswerOk(w: Chain, sub: Subject, jobs: seq<Job>, a: Answer)
    requires |jobs| == 4 + 2 * (sub.M() + sub.N())
  {
    && 5 <= a.jobId < |jobs| && a.jobId % 2 == 1
    && var k := (a.jobId - 5) / 2;
       && jobs[a.jobId].finished && a.pos == PlaceOf(jobs[a.jobId]) && a.pos in w.txs
       && a.txid == Some(w.txs[a.pos].id) && a.full.None?
       && a.outputs == if k < sub.M() then w.txs[a.pos].outs else []
  }

  ghost predicate Answered(answer: seq<Answer>, i: int) { exists j :: 1 <= j < |answer| && answer[j].jobId == i }

  /** Fetch `i` has delivered its answer, if it has finished and did not fail. */
  ghost predicate FetchAnswered(jobs: seq<Job>, answer: seq<Answer>, errors: set<nat>, i: int)
    requires 0 <= i < |jobs|
  {
    jobs[i].finished && i !in errors ==> Answered(answer, i)
  }

  ghost predicate AnswersOk(w: Chain, sub: Subject, jobs: seq<Job>, answer: seq<Answer>, errors: set<nat>)
    requires |jobs| == 4 + 2 * (sub.M() + sub.N())
  {
    && |answer| > 0 && answer[0] == Answer(3, sub.pos, Some(sub.id), Some(sub.tx), [])
    && (forall j :: 1 <= j < |answer| ==> AnswerOk(w, sub, jobs, answer[j]) && answer[j].jobId !in errors)
    && (forall i :: 5 <= i < |jobs| && i % 2 == 1 ==> FetchAnswered(jobs, answer, errors, i))
  }

  function HeightOf(w: Chain, id: Id): int { if id in w.byId then w.byId[id].height else -1 }

  ghost predicate HeightsOk(w: Chain, sub: Subject, jobs: seq<Job>, heights: map<Id, int>)
    requires |jobs| == 4 + 2 * (sub.M() + sub.N())
  {
    && (forall id :: id in heights ==> heights[id] == HeightOf(w, id))
    && (forall k :: 0 <= k < sub.M() && jobs[4 + 2 * k].finished ==> Inputs(sub.tx, sub.pos)[k].prev in heights)
  }

  /** Before the engine has acted at all. */
  predicate Fresh(id: Id, s: Search) { s == CoinsRequest(id) }

  /** The transaction has not been delivered yet. */
  ghost predicate Looking(w: Chain, id: Id, s: Search) {
    && s.mode.TxForTxIdCoins? && |s.jobs| == 4 && HeadOk(w, id, s.jobs)
    && s.answer == [] && s.txRefs == map[]
    && (forall x :: x in s.blockHeights ==> s.blockHeights[x] == HeightOf(w, x))
    && (s.jobs[3].finished ==> 3 in s.errors) && ErrorsFinished(s.jobs, s.errors)
  }

  ghost predicate Loaded(w: Chain, id: Id, s: Search) {
    && s.mode.TxForTxIdCoins? && id in w.byId && w.byId[id] in w.txs
    && var sub := SubjectOf(w, id);
       && JobsOk(w, sub, s.jobs)
       && RowsOk(w, sub, s.jobs, s.txRefs)
       && AnswersOk(w, sub, s.jobs, s.answer, s.errors)
       && HeightsOk(w, sub, s.jobs, s.blockHeights)
       && ErrorsFinished(s.jobs, s.errors) && 3 !in s.errors
  }

  ghost predicate CoinsInv(w: Chain, id: Id, s: Search) {
    Fresh(id, s) || Looking(w, id, s) || Loaded(w, id, s)
  }

  // ---------------------------------------------------------------- delivery of the transaction

  /** The pairs as pushed, before any of them is started. */
  ghost predicate PairsPushed(sub: Subject, jobs: seq<Job>) {
    && |jobs| == 4 + 2 * (sub.M() + sub.N())
    && forall k ::
         0 <= k < sub.M() + sub.N() ==> jobs[4 + 2 * k] == sub.LookupAt(k) && jobs[5 + 2 * k] == Fetch(sub.FilterAt(k))
  }

  lemma {:induction false} SecondPart(head: seq<Job>, a: seq<Job>, b: seq<Job>, n: nat)
    ensures n < |a| ==> (head + (a + b))[|head| + n] == a[n]
    ensures n < |b| ==> (head + (a + b))[|head| + |a| + n] == b[n]
  {
  }

  /** The pair pushed for input or output `k`. */
  lemma {:induction false} PairPushed(sub: Subject, head: seq<Job>, k: nat)
    requires |head| == 4 && k < sub.M() + sub.N()
    ensures var jobs := head + TxPairs(sub.tx, sub.id, sub.pos, 4);
            && |jobs| == 4 + 2 * (sub.M() + sub.N())
            && jobs[4 + 2 * k] == sub.LookupAt(k) && jobs[5 + 2 * k] == Fetch(sub.FilterAt(k))
  {
    var m := sub.M();
    var ins, outs := InPairs(Inputs(sub.tx, sub.pos), 4), OutPairs(sub.id, sub.pos, 0, sub.N(), 4 + 2 * m);
    InPairsAt(Inputs(sub.tx, sub.pos), 4, if k < m then k else 0);
    OutPairsAt(sub.id, sub.pos, 0, sub.N(), 4 + 2 * m, if k < m then 0 else k - m);
    var n := if k < m then 2 * k else 2 * (k - m);
    SecondPart(head, ins, outs, n);
    SecondPart(head, ins, outs, n + 1);
  }

  lemma {:induction false} ScanPushesPairs(sub: Subject, head: seq<Job>)
    requires |head| == 4
    ensures PairsPushed(sub, head + TxPairs(sub.tx, sub.id, sub.pos, 4))
  {
    InPairsAt(Inputs(sub.tx, sub.pos), 4, 0);
    OutPairsAt(sub.id, sub.pos, 0, sub.N(), 4 + 2 * sub.M(), 0);
    forall k | 0 <= k < sub.M() + sub.N()
      ensures var jobs := head + TxPairs(sub.tx, sub.id, sub.pos, 4);
              jobs[4 + 2 * k] == sub.LookupAt(k) && jobs[5 + 2 * k] == Fetch(sub.FilterAt(k))
    {
      PairPushed(sub, head, k);
    }
  }

  lemma {:induction false} PushedPairsAreOk(w: Chain, sub: Subject, jobs: seq<Job>, txRefs: TxRefs, answer: seq<Answer>,
                                            heights: map<Id, int>, errors: set<nat>)
    requires PairsPushed(sub, jobs) && HeadOk(w, sub.id, jobs) && jobs[3].finished
    requires txRefs == map[sub.pos := UnknownRows(sub.N())]
    requires answer == [Answer(3, sub.pos, Some(sub.id), Some(sub.tx), [])]
    requires forall x :: x in heights ==> heights[x] == HeightOf(w, x)
    ensures JobsOk(w, sub, jobs) && RowsOk(w, sub, jobs, txRefs)
    ensures AnswersOk(w, sub, jobs, answer, errors) && HeightsOk(w, sub, jobs, heights)
  {
    forall k | 0 <= k < sub.M() + sub.N()
      ensures PairOk(w, sub, jobs, k) && !jobs[4 + 2 * k].finished && !jobs[5 + 2 * k].finished
    {
      assert jobs[4 + 2 * k] == sub.LookupAt(k);
    }
    forall i | 0 <= i < sub.N() ensures RowAt(w, sub, jobs, txRefs, i) {
      assert PairOk(w, sub, jobs, sub.M() + i);
    }
    forall i | 5 <= i < |jobs| && i % 2 == 1 ensures FetchAnswered(jobs, answer, errors, i) {
      assert PairOk(w, sub, jobs, (i - 5) / 2);
      assert i == 5 + 2 * ((i - 5) / 2);
    }
  }

  lemma {:induction false} HeadStays(w: Chain, id: Id, head: seq<Job>, more: seq<Job>)
    requires |head| >= 4 && HeadOk(w, id, head)
    ensures HeadOk(w, id, head + more)
  {
    assert forall i :: 0 <= i < |head| ==> (head + more)[i] == head[i];
  }

  /** The state after the transaction has been delivered. */
  ghost function AfterDelivery(sub: Subject, s: Search): Search
    requires |s.jobs| == 4
  {
    s.(jobs := s.jobs[3 := s.jobs[3].(finished := true)] + TxPairs(sub.tx, sub.id, sub.pos, 4),
       answer := [Answer(3, sub.pos, Some(sub.id), Some(sub.tx), [])],
       txRefs := map[sub.pos := UnknownRows(sub.N())])
  }

  lemma {:induction false} DeliveredAnswer(w: Chain, id: Id, s: Search)
    requires ValidChain(w) && Looking(w, id, s) && Enabled(w, s, Reply(3))
    ensures id in w.byId && w.byId[id] in w.txs
    ensures FillTx(w, s.jobs[3], 3) == Answer(3, w.byId[id], Some(id), Some(w.txs[w.byId[id]]), [])
  {
  }

  lemma {:induction false} DeliveryShape(w: Chain, id: Id, s: Search)
    requires ValidChain(w) && Looking(w, id, s) && Enabled(w, s, Reply(3))
    requires id in w.byId && w.byId[id] in w.txs
    ensures Next(w, s, Reply(3)) == Ok(AfterDelivery(SubjectOf(w, id), s))
  {
    var sub := SubjectOf(w, id);
    DeliveredAnswer(w, id, s);
    ScanAppendsPairs(FillTx(w, s.jobs[3], 3), sub.tx, s.jobs[3 := s.jobs[3].(finished := true)]);
  }

  lemma {:induction false} DeliveredLoads(w: Chain, id: Id, s: Search)
    requires Looking(w, id, s) && InFlight(s.jobs[3]) && id in w.byId && w.byId[id] in w.txs
    ensures Loaded(w, id, AfterDelivery(SubjectOf(w, id), s))
  {
    var sub := SubjectOf(w, id);
    var head := s.jobs[3 := s.jobs[3].(finished := true)];
    var s' := AfterDelivery(sub, s);
    ScanPushesPairs(sub, head);
    HeadStays(w, id, head, TxPairs(sub.tx, id, sub.pos, 4));
    PushedPairsAreOk(w, sub, s'.jobs, s'.txRefs, s'.answer, s'.blockHeights, s'.errors);
  }

  lemma {:induction false} DeliveryLoads(w: Chain, id: Id, s: Search)
    requires ValidChain(w) && Looking(w, id, s) && Enabled(w, s, Reply(3))
    ensures Next(w, s, Reply(3)).Ok? && Loaded(w, id, Next(w, s, Reply(3)).s)
  {
    DeliveredAnswer(w, id, s);
    DeliveryShape(w, id, s);
    DeliveredLoads(w, id, s);
  }
}
