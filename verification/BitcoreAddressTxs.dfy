/**
 The transactions of an address (AddressTxs): each transaction is fetched in full once, and for each of its
 outputs that pay the address the spender is looked up.
 */
module BitcoreAddressTxs {
  import opened BitcoreSearch
  import opened Options
  import opened Sequences
  import opened BitcoreAddress
  import opened BitcoreCoins
  import opened BitcoreCoinsRuns

  // ---------------------------------------------------------------- the jobs of a delivered transaction

  /** One spent-lookup and one waiting fetch per wanted output from `i` on. */
  function WantedPairs(id: Id, p: Pos, wanted: set<nat>, i: nat, n: nat, base: nat): seq<Job>
    decreases n - i
  {
    if i >= n then []
    else if i in wanted
         then [LookupSpent(id, i, p, base + 1), Fetch(IncludeTxId)] + WantedPairs(id, p, wanted, i + 1, n, base + 2)
    else WantedPairs(id, p, wanted, i + 1, n, base)
  }

  lemma {:induction false} SkipTag(t: Answer, wanted: set<nat>, tag: Tag, rest: seq<Tag>, jobs: seq<Job>, i: nat)
    requires t.txid.Some? && !tag.OutputValue?
    ensures ScanJobs(false, t, wanted, [tag] + rest, jobs, i) == ScanJobs(false, t, wanted, rest, jobs, i)
  {
    assert ([tag] + rest)[1..] == rest;
  }

  lemma {:induction false} SkipIns(t: Answer, wanted: set<nat>, ins: seq<TxIn>, rest: seq<Tag>, jobs: seq<Job>)
    requires t.txid.Some?
    ensures ScanJobs(false, t, wanted, InTags(ins) + rest, jobs, 0) == ScanJobs(false, t, wanted, rest, jobs, 0)
    decreases ins
  {
    if ins == [] {
      assert InTags(ins) + rest == rest;
    } else {
      var more := InTags(ins[1..]) + rest;
      var t3 := [OtherTag] + more;
      var t2 := [TxInScript] + t3;
      var t1 := [PrevTxIndex(ins[0].index)] + t2;
      assert InTags(ins) + rest == [PrevTxHash(ins[0].prev)] + t1;
      SkipTag(t, wanted, PrevTxHash(ins[0].prev), t1, jobs, 0);
      SkipTag(t, wanted, PrevTxIndex(ins[0].index), t2, jobs, 0);
      SkipTag(t, wanted, TxInScript, t3, jobs, 0);
      SkipTag(t, wanted, OtherTag, more, jobs, 0);
      SkipIns(t, wanted, ins[1..], rest, jobs);
    }
  }

  lemma {:induction false} ScanWanted(t: Answer, wanted: set<nat>, outs: seq<nat>, i: nat, jobs: seq<Job>)
    requires t.txid.Some?
    ensures ScanJobs(false, t, wanted, OutTags(outs) + [OtherTag], jobs, i) ==
            jobs + WantedPairs(t.txid.value, t.pos, wanted, i, i + |outs|, |jobs|)
    decreases outs
  {
    if outs == [] {
      assert OutTags(outs) + [OtherTag] == [OtherTag] + [];
      SkipTag(t, wanted, OtherTag, [], jobs, i);
      assert jobs + [] == jobs;
    } else {
      var more := OutTags(outs[1..]) + [OtherTag];
      assert OutTags(outs) + [OtherTag] == [OutputValue(outs[0])] + ([OutputScript] + more);
      var pair := [LookupSpent(t.txid.value, i, t.pos, |jobs| + 1), Fetch(IncludeTxId)];
      var jobs' := if i in wanted then jobs + pair else jobs;
      ScanValue(t, wanted, outs[0], [OutputScript] + more, jobs, i);
      SkipTag(t, wanted, OutputScript, more, jobs', i + 1);
      ScanWanted(t, wanted, outs[1..], i + 1, jobs');
      if i in wanted {
        JoinAssociates(jobs, pair, WantedPairs(t.txid.value, t.pos, wanted, i + 1, i + |outs|, |jobs| + 2));
      }
    }
  }

  lemma {:induction false} ScanValue(t: Answer, wanted: set<nat>, v: nat, rest: seq<Tag>, jobs: seq<Job>, i: nat)
    requires t.txid.Some?
    ensures ScanJobs(false, t, wanted, [OutputValue(v)] + rest, jobs, i) ==
            ScanJobs(false, t, wanted, rest,
              if i in wanted then jobs + [LookupSpent(t.txid.value, i, t.pos, |jobs| + 1), Fetch(IncludeTxId)]
              else jobs, i + 1)
  {
    assert ([OutputValue(v)] + rest)[1..] == rest;
  }

  lemma {:induction false} ScanAppendsWanted(t: Answer, wanted: set<nat>, tx: ChainTx, jobs: seq<Job>)
    requires t.txid.Some?
    ensures ScanJobs(false, t, wanted, Tags(tx), jobs, 0) ==
            jobs + WantedPairs(t.txid.value, t.pos, wanted, 0, |tx.outs|, |jobs|)
  {
    var rest := OutTags(tx.outs) + [OtherTag];
    assert Tags(tx) == [OtherTag] + (InTags(tx.ins) + rest);
    SkipTag(t, wanted, OtherTag, InTags(tx.ins) + rest, jobs, 0);
    SkipIns(t, wanted, tx.ins, rest, jobs);
    ScanWanted(t, wanted, tx.outs, 0, jobs);
  }

  /** Pair `k` is for some wanted output. */
  lemma {:induction false} WantedPairsAt(id: Id, p: Pos, wanted: set<nat>, i: nat, n: nat, base: nat, k: nat)
    returns (o: nat)
    requires 2 * k < |WantedPairs(id, p, wanted, i, n, base)|
    ensures |WantedPairs(id, p, wanted, i, n, base)| % 2 == 0
    ensures i <= o < n && o in wanted
    ensures WantedPairs(id, p, wanted, i, n, base)[2 * k] == LookupSpent(id, o, p, base + 2 * k + 1)
    ensures WantedPairs(id, p, wanted, i, n, base)[2 * k + 1] == Fetch(IncludeTxId)
    decreases n - i
  {
    if i in wanted {
      var rest := WantedPairs(id, p, wanted, i + 1, n, base + 2);
      if k == 0 {
        o := i;
        WantedPairsEven(id, p, wanted, i, n, base);
      } else {
        o := WantedPairsAt(id, p, wanted, i + 1, n, base + 2, k - 1);
        var all := WantedPairs(id, p, wanted, i, n, base);
        assert all[2 * k] == rest[2 * (k - 1)] && all[2 * k + 1] == rest[2 * (k - 1) + 1];
      }
    } else {
      o := WantedPairsAt(id, p, wanted, i + 1, n, base, k);
    }
  }

  lemma {:induction false} WantedPairsEven(id: Id, p: Pos, wanted: set<nat>, i: nat, n: nat, base: nat)
    ensures |WantedPairs(id, p, wanted, i, n, base)| % 2 == 0
    decreases n - i
  {
    if i < n { WantedPairsEven(id, p, wanted, i + 1, n, if i in wanted then base + 2 else base); }
  }

  /** Every wanted output has a pair. */
  lemma {:induction false} WantedPairsCover(id: Id, p: Pos, wanted: set<nat>, i: nat, n: nat, base: nat, o: nat)
    returns (k: nat)
    requires i <= o < n && o in wanted
    ensures 2 * k < |WantedPairs(id, p, wanted, i, n, base)|
    ensures WantedPairs(id, p, wanted, i, n, base)[2 * k] == LookupSpent(id, o, p, base + 2 * k + 1)
    decreases n - i
  {
    if i == o {
      k := 0;
    } else if i in wanted {
      var m := WantedPairsCover(id, p, wanted, i + 1, n, base + 2, o);
      k := m + 1;
      var all := WantedPairs(id, p, wanted, i, n, base);
      assert all[2 * k] == WantedPairs(id, p, wanted, i + 1, n, base + 2)[2 * m];
    } else {
      k := WantedPairsCover(id, p, wanted, i + 1, n, base, o);
    }
  }

  // ---------------------------------------------------------------- invariant

  function KeyOf(job: Job): Pos { Pos(job.intData2, job.intData3) }

  /** The `d` full fetches are jobs 1..d; after them come pairs. */
  predicate IsLookup(d: nat, n: int) { n > d && (n - d - 1) % 2 == 0 }

  predicate FullOk(job: Job, p: Pos) {
    job.(started := false, finished := false) == FetchAt(IncludeFullTransactionData, p)
    && (job.finished ==> job.started)
  }

  /** A spent-lookup for an output of the address, followed by the fetch it names. */
  predicate LookupOk(w: Chain, uses: seq<Use>, jobs: seq<Job>, n: nat)
    requires n < |jobs|
  {
    var job := jobs[n];
    && n + 1 < |jobs| && job.kind.LookupSpentTx? && job.nextJobId == n + 1 && job.nextJobId2 == -1
    && (job.finished ==> job.started)
    && job.intData >= 0 && Use(KeyOf(job), job.intData) in uses
    && KeyOf(job) in w.txs && job.data == Some(w.txs[KeyOf(job)].id)
    && Linked(w, job, jobs[n + 1], IncludeTxId)
  }

  ghost predicate JobsOk(w: Chain, uses: seq<Use>, jobs: seq<Job>) {
    var d := |Firsts(uses)|;
    && |jobs| > d && (|jobs| - d - 1) % 2 == 0 && jobs[0].finished
    && (forall n :: 1 <= n <= d ==> FullOk(jobs[n], Firsts(uses)[n - 1]))
    && (forall n :: 0 <= n < |jobs| && IsLookup(d, n) ==> LookupOk(w, uses, jobs, n))
  }

  predicate LooksUp(jobs: seq<Job>, d: nat, u: Use, n: int) {
    0 <= n < |jobs| && IsLookup(d, n) && KeyOf(jobs[n]) == u.pos && jobs[n].intData == u.index
  }

  ghost predicate LookedUp(jobs: seq<Job>, d: nat, u: Use) { exists n :: LooksUp(jobs, d, u, n) && jobs[n].finished }

  /** The spender of an output, as the indexer knows it. */
  function Spender(w: Chain, u: Use): Pos {
    if u.pos in w.txs && (w.txs[u.pos].id, u.index) in w.spent then w.spent[(w.txs[u.pos].id, u.index)] else NOT_FOUND
  }

  ghost predicate RowOk(w: Chain, jobs: seq<Job>, d: nat, txRefs: TxRefs, u: Use) {
    u.pos in txRefs && u.index in txRefs[u.pos]
    && txRefs[u.pos][u.index] == if LookedUp(jobs, d, u) then Resolved(Spender(w, u)) else UNKNOWN
  }

  ghost predicate RowsOk(w: Chain, uses: seq<Use>, jobs: seq<Job>, txRefs: TxRefs) {
    && txRefs.Keys == Table(uses).Keys
    && (forall p :: p in txRefs ==> txRefs[p].Keys == Table(uses)[p].Keys)
    && (forall u :: u in uses ==> RowOk(w, jobs, |Firsts(uses)|, txRefs, u))
  }

  /** Once a transaction has been delivered, every output of it that pays the address is being looked up. */
  ghost predicate Covered(uses: seq<Use>, jobs: seq<Job>, errors: set<nat>) {
    var d := |Firsts(uses)|;
    |jobs| > d
    && forall n, u :: 1 <= n <= d && jobs[n].finished && n !in errors && u in uses && u.pos == Firsts(uses)[n - 1] ==>
      exists m :: LooksUp(jobs, d, u, m)
  }

  predicate FullDoneAt(uses: seq<Use>, jobs: seq<Job>, errors: set<nat>, p: Pos, n: int) {
    1 <= n <= |Firsts(uses)| && n < |jobs| && Firsts(uses)[n - 1] == p && jobs[n].finished && n !in errors
  }

  /** The transaction has been delivered in full. */
  ghost predicate FullDone(uses: seq<Use>, jobs: seq<Job>, errors: set<nat>, p: Pos) {
    exists n :: FullDoneAt(uses, jobs, errors, p, n)
  }

  /** Outputs are looked up only for transactions that have been delivered, and each at most once. */
  ghost predicate Traced(uses: seq<Use>, jobs: seq<Job>, errors: set<nat>) {
    var d := |Firsts(uses)|;
    && (forall m {:trigger IsLookup(d, m)} ::
          0 <= m < |jobs| && IsLookup(d, m) ==> FullDone(uses, jobs, errors, KeyOf(jobs[m])))
    && (forall l, m {:trigger IsLookup(d, l), IsLookup(d, m)} ::
          0 <= l < m < |jobs| && IsLookup(d, l) && IsLookup(d, m) ==>
          KeyOf(jobs[l]) != KeyOf(jobs[m]) || jobs[l].intData != jobs[m].intData)
  }

  ghost predicate Listed(w: Chain, uses: seq<Use>, s: Search) {
    && s.mode.AddressTxs? && JobsOk(w, uses, s.jobs) && RowsOk(w, uses, s.jobs, s.txRefs)
    && Covered(uses, s.jobs, s.errors) && Traced(uses, s.jobs, s.errors)
    && ErrorsFinished(s.jobs, s.errors)
  }

  ghost predicate TxsInv(w: Chain, script: Id, s: Search) {
    Waiting(AddressTxs, script, s) || Listed(w, UsesOf(w, script), s)
  }

  // ---------------------------------------------------------------- the list of uses arrives

  lemma {:induction false} FetchesFollow(first: Job, uses: seq<Use>, jobs: seq<Job>)
    requires jobs == [first] + JobsFor(AddressTxs, uses)
    ensures |jobs| == |Firsts(uses)| + 1 && jobs[0] == first
    ensures forall n :: 1 <= n <= |Firsts(uses)| ==> jobs[n] == FetchAt(IncludeFullTransactionData, Firsts(uses)[n - 1])
  {
  }

  lemma {:induction false} UsesArrive(w: Chain, script: Id, first: Job, s: Search)
    requires ValidChain(w) && first.finished
    requires s.mode.AddressTxs? && s.txRefs == Table(UsesOf(w, script)) && s.errors == {}
    requires s.jobs == [first] + JobsFor(AddressTxs, UsesOf(w, script))
    ensures Listed(w, UsesOf(w, script), s)
  {
    var uses := UsesOf(w, script);
    var d := |Firsts(uses)|;
    FetchesFollow(first, uses, s.jobs);
    TableHolds(uses);
    forall u | u in uses ensures RowOk(w, s.jobs, d, s.txRefs, u) { assert Use(u.pos, u.index) == u; }
  }

  // ---------------------------------------------------------------- steps

  /** What a step on one or two jobs keeps for the others. */
  ghost predicate Agree(jobs: seq<Job>, jobs': seq<Job>, d: nat) {
    |jobs'| >= |jobs| && forall n :: 0 <= n < |jobs| && IsLookup(d, n) ==>
      jobs'[n].finished == jobs[n].finished && KeyOf(jobs'[n]) == KeyOf(jobs[n]) && jobs'[n].intData == jobs[n].intData
  }

  lemma {:induction false} AgreeLookedUp(jobs: seq<Job>, jobs': seq<Job>, d: nat, u: Use)
    requires Agree(jobs, jobs', d) && forall n :: |jobs| <= n < |jobs'| ==> !jobs'[n].finished
    ensures LookedUp(jobs', d, u) == LookedUp(jobs, d, u)
    ensures (exists m :: LooksUp(jobs, d, u, m)) ==> exists m :: LooksUp(jobs', d, u, m)
  {
    if LookedUp(jobs, d, u) {
      var n :| LooksUp(jobs, d, u, n) && jobs[n].finished;
      assert LooksUp(jobs', d, u, n) && jobs'[n].finished;
    }
    if LookedUp(jobs', d, u) {
      var n :| LooksUp(jobs', d, u, n) && jobs'[n].finished;
      assert LooksUp(jobs, d, u, n) && jobs[n].finished;
    }
    if m :| LooksUp(jobs, d, u, m) { assert LooksUp(jobs', d, u, m); }
  }

  lemma {:induction false} AgreeKeepsRows(w: Chain, uses: seq<Use>, jobs: seq<Job>, jobs': seq<Job>, txRefs: TxRefs)
    requires Agree(jobs, jobs', |Firsts(uses)|) && forall n :: |jobs| <= n < |jobs'| ==> !jobs'[n].finished
    requires RowsOk(w, uses, jobs, txRefs)
    ensures RowsOk(w, uses, jobs', txRefs)
  {
    forall u | u in uses ensures RowOk(w, jobs', |Firsts(uses)|, txRefs, u) {
      assert RowOk(w, jobs, |Firsts(uses)|, txRefs, u);
      AgreeLookedUp(jobs, jobs', |Firsts(uses)|, u);
    }
  }

  lemma {:induction false} AgreeKeepsCover(uses: seq<Use>, jobs: seq<Job>, errors: set<nat>, jobs': seq<Job>,
                                           errors': set<nat>)
    requires Covered(uses, jobs, errors) && Agree(jobs, jobs', |Firsts(uses)|)
    requires forall n ::
               1 <= n <= |Firsts(uses)| && jobs'[n].finished && n !in errors' ==> jobs[n].finished && n !in errors
    ensures Covered(uses, jobs', errors')
  {
    var d := |Firsts(uses)|;
    forall n, u | 1 <= n <= d && jobs'[n].finished && n !in errors' && u in uses && u.pos == Firsts(uses)[n - 1]
      ensures exists m :: LooksUp(jobs', d, u, m)
    {
      var m :| LooksUp(jobs, d, u, m);
      assert LooksUp(jobs', d, u, m);
    }
  }

  /** The lookups stay what they are. */
  ghost predicate SameKeys(jobs: seq<Job>, jobs': seq<Job>, d: nat) {
    |jobs'| == |jobs| && forall n :: 0 <= n < |jobs| && IsLookup(d, n) ==>
      KeyOf(jobs'[n]) == KeyOf(jobs[n]) && jobs'[n].intData == jobs[n].intData
  }

  lemma {:induction false} TracedKept(uses: seq<Use>, jobs: seq<Job>, errors: set<nat>, jobs': seq<Job>,
                                      errors': set<nat>)
    requires Traced(uses, jobs, errors) && SameKeys(jobs, jobs', |Firsts(uses)|)
    requires forall n :: 1 <= n <= |Firsts(uses)| && n < |jobs| && jobs[n].finished && n !in errors ==>
                         jobs'[n].finished && n !in errors'
    ensures Traced(uses, jobs', errors')
  {
    var d := |Firsts(uses)|;
    forall m | 0 <= m < |jobs'| && IsLookup(d, m) ensures FullDone(uses, jobs', errors', KeyOf(jobs'[m])) {
      assert FullDone(uses, jobs, errors, KeyOf(jobs[m]));
      var n :| FullDoneAt(uses, jobs, errors, KeyOf(jobs[m]), n);
      assert FullDoneAt(uses, jobs', errors', KeyOf(jobs'[m]), n);
    }
  }

  /** The three positions a job can have. */
  lemma {:induction false} Kinds(w: Chain, uses: seq<Use>, jobs: seq<Job>, i: nat)
    requires ValidChain(w) && JobsOk(w, uses, jobs) && i < |jobs| && forall p :: p in Firsts(uses) ==> Positive(p)
    ensures var d := |Firsts(uses)|;
            && (i == 0 ==> jobs[i].finished)
            && (1 <= i <= d ==> FullOk(jobs[i], Firsts(uses)[i - 1]) && HasPlace(jobs[i]) && jobs[i].kind.FetchTx?)
            && (i > d && IsLookup(d, i) ==> LookupOk(w, uses, jobs, i) && !Invalid(jobs[i]))
            && (i > d && !IsLookup(d, i) ==> (
                  && IsLookup(d, i - 1) && LookupOk(w, uses, jobs, i - 1)
                  && (Startable(jobs[i]) || jobs[i].started ==> HasPlace(jobs[i])) && jobs[i].kind.FetchTx?))
  {
    var d := |Firsts(uses)|;
    if 1 <= i <= d { assert Positive(Firsts(uses)[i - 1]); }
    if i > d && !IsLookup(d, i) {
      assert IsLookup(d, i - 1);
      assert LookupOk(w, uses, jobs, i - 1);
      if Found(w, jobs[i - 1]).height != -1 { PlaceIsPositive(w, jobs[i - 1]); }
    }
  }

  lemma {:induction false} JobsKept(w: Chain, uses: seq<Use>, jobs: seq<Job>, i: nat, job: Job)
    requires JobsOk(w, uses, jobs) && 0 < i < |jobs| && job.started && (jobs[i].finished ==> job.finished)
    requires job.(started := true, finished := true) == jobs[i].(started := true, finished := true)
    requires IsLookup(|Firsts(uses)|, i) ==> job.finished == jobs[i].finished
    requires i > |Firsts(uses)| && !IsLookup(|Firsts(uses)|, i) ==> HasPlace(jobs[i])
    ensures JobsOk(w, uses, jobs[i := job])
  {
    var d := |Firsts(uses)|;
    var jobs' := jobs[i := job];
    forall n | 1 <= n <= d ensures FullOk(jobs'[n], Firsts(uses)[n - 1]) {
      assert FullOk(jobs[n], Firsts(uses)[n - 1]);
    }
    forall n | 0 <= n < |jobs'| && IsLookup(d, n) ensures LookupOk(w, uses, jobs', n) {
      assert LookupOk(w, uses, jobs, n);
    }
  }

  lemma {:induction false} FlagShapes(jobs: seq<Job>, i: nat, job: Job, d: nat)
    requires i < |jobs| && job.(started := true, finished := true) == jobs[i].(started := true, finished := true)
    requires IsLookup(d, i) ==> job.finished == jobs[i].finished
    ensures Agree(jobs, jobs[i := job], d) && SameKeys(jobs, jobs[i := job], d)
  {
  }

  lemma {:induction false} FlagErrors(jobs: seq<Job>, errors: set<nat>, i: nat, job: Job, errors': set<nat>)
    requires i < |jobs| && ErrorsFinished(jobs, errors) && (jobs[i].finished ==> job.finished)
    requires errors <= errors' <= errors + {i} && (i in errors' && i !in errors ==> job.finished)
    ensures ErrorsFinished(jobs[i := job], errors')
  {
  }

  lemma {:induction false} ListedFlags(w: Chain, uses: seq<Use>, s: Search, i: nat, job: Job, errors': set<nat>)
    requires Listed(w, uses, s) && 0 < i < |s.jobs| && job.started && (s.jobs[i].finished ==> job.finished)
    requires job.(started := true, finished := true) == s.jobs[i].(started := true, finished := true)
    requires IsLookup(|Firsts(uses)|, i) ==> job.finished == s.jobs[i].finished
    requires i > |Firsts(uses)| && !IsLookup(|Firsts(uses)|, i) ==> HasPlace(s.jobs[i])
    requires s.errors <= errors' <= s.errors + {i}
    requires i in errors' && i !in s.errors ==> job.finished && !s.jobs[i].finished
    requires i <= |Firsts(uses)| && job.finished && !s.jobs[i].finished ==> i in errors'
    ensures Listed(w, uses, s.(jobs := s.jobs[i := job], errors := errors'))
  {
    var jobs' := s.jobs[i := job];
    FlagShapes(s.jobs, i, job, |Firsts(uses)|);
    FlagErrors(s.jobs, s.errors, i, job, errors');
    JobsKept(w, uses, s.jobs, i, job);
    AgreeKeepsRows(w, uses, s.jobs, jobs', s.txRefs);
    AgreeKeepsCover(uses, s.jobs, s.errors, jobs', errors');
    TracedKept(uses, s.jobs, s.errors, jobs', errors');
  }

  lemma {:induction false} ListedStarts(w: Chain, uses: seq<Use>, s: Search, i: nat)
    requires ValidChain(w) && Listed(w, uses, s) && Enabled(w, s, Start(i))
             && forall p :: p in Firsts(uses) ==> Positive(p)
    ensures Listed(w, uses, StartJob(s, i))
  {
    Kinds(w, uses, s.jobs, i);
    ListedFlags(w, uses, s, i, s.jobs[i].(started := true), s.errors);
  }

  lemma {:induction false} ListedFails(w: Chain, uses: seq<Use>, s: Search, i: nat)
    requires ValidChain(w) && Listed(w, uses, s) && Enabled(w, s, Fail(i))
             && forall p :: p in Firsts(uses) ==> Positive(p)
    ensures Listed(w, uses, Next(w, s, Fail(i)).s)
  {
    Kinds(w, uses, s.jobs, i);
    ListedFlags(w, uses, s, i, s.jobs[i].(finished := true), s.errors + {i});
  }

  lemma {:induction false} SpenderFetchShape(w: Chain, s: Search, i: nat)
    requires Enabled(w, s, Reply(i)) && s.jobs[i].kind.FetchTx? && s.jobs[i].filter.IncludeTxId?
    ensures Next(w, s, Reply(i)) == Ok(s.(jobs := s.jobs[i := s.jobs[i].(finished := true)],
                                          answer := s.answer + [FillTx(w, s.jobs[i], i)]))
  {
  }

  /** What is listed does not depend on what was delivered. */
  lemma {:induction false} ListedForAnyAnswer(w: Chain, uses: seq<Use>, s: Search, answer: seq<Answer>)
    requires Listed(w, uses, s)
    ensures Listed(w, uses, s.(answer := answer))
  {
  }

  /** The spender of an output is delivered. */
  lemma {:induction false} ListedSpenderFetch(w: Chain, uses: seq<Use>, s: Search, i: nat)
    requires ValidChain(w) && Listed(w, uses, s) && Enabled(w, s, Reply(i))
             && forall p :: p in Firsts(uses) ==> Positive(p)
    requires i > |Firsts(uses)| && !IsLookup(|Firsts(uses)|, i)
    ensures Next(w, s, Reply(i)).Ok? && Listed(w, uses, Next(w, s, Reply(i)).s)
  {
    Kinds(w, uses, s.jobs, i);
    SpenderFetchShape(w, s, i);
    ListedFlags(w, uses, s, i, s.jobs[i].(finished := true), s.errors);
    var s1 := s.(jobs := s.jobs[i := s.jobs[i].(finished := true)], errors := s.errors);
    ListedForAnyAnswer(w, uses, s1, s.answer + [FillTx(w, s.jobs[i], i)]);
  }

  // ---------------------------------------------------------------- a transaction of the address is delivered

  /** `pairs` are spent-lookups for outputs of `p` that pay the address. */
  lemma {:induction false} PairsJoin(w: Chain, uses: seq<Use>, jobs: seq<Job>, p: Pos, wanted: set<nat>)
    requires JobsOk(w, uses, jobs) && p in w.txs && forall o :: o in wanted ==> Use(p, o) in uses
    ensures JobsOk(w, uses, jobs + WantedPairs(w.txs[p].id, p, wanted, 0, |w.txs[p].outs|, |jobs|))
  {
    var d := |Firsts(uses)|;
    var pairs := WantedPairs(w.txs[p].id, p, wanted, 0, |w.txs[p].outs|, |jobs|);
    var jobs' := jobs + pairs;
    WantedPairsEven(w.txs[p].id, p, wanted, 0, |w.txs[p].outs|, |jobs|);
    forall n | 1 <= n <= d ensures FullOk(jobs'[n], Firsts(uses)[n - 1]) {
      assert FullOk(jobs[n], Firsts(uses)[n - 1]);
    }
    forall n | 0 <= n < |jobs'| && IsLookup(d, n) ensures LookupOk(w, uses, jobs', n) {
      if n < |jobs| {
        assert LookupOk(w, uses, jobs, n);
      } else {
        var k := (n - |jobs|) / 2;
        assert n == |jobs| + 2 * k;
        var o := WantedPairsAt(w.txs[p].id, p, wanted, 0, |w.txs[p].outs|, |jobs|, k);
        assert jobs'[n] == pairs[2 * k] && jobs'[n + 1] == pairs[2 * k + 1];
        assert Use(p, o) in uses;
      }
    }
  }

  lemma {:induction false} NewPairsUnfinished(id: Id, p: Pos, wanted: set<nat>, i: nat, n: nat, base: nat)
    ensures forall k ::
              0 <= k < |WantedPairs(id, p, wanted, i, n, base)| ==> !WantedPairs(id, p, wanted, i, n, base)[k].finished
    decreases n - i
  {
    if i < n { NewPairsUnfinished(id, p, wanted, i + 1, n, if i in wanted then base + 2 else base); }
  }

  lemma {:induction false} DeliveryCovers(w: Chain, uses: seq<Use>, jobs: seq<Job>, errors: set<nat>, i: nat, p: Pos,
                                          wanted: set<nat>)
    requires JobsOk(w, uses, jobs) && 1 <= i <= |Firsts(uses)| && p == Firsts(uses)[i - 1] && p in w.txs
    requires Covered(uses, jobs[i := jobs[i].(finished := false)], errors)
    requires forall u :: u in uses && u.pos == p ==> u.index in wanted && u.index < |w.txs[p].outs|
    ensures Covered(uses, jobs + WantedPairs(w.txs[p].id, p, wanted, 0, |w.txs[p].outs|, |jobs|), errors)
  {
    var d := |Firsts(uses)|;
    var before := jobs[i := jobs[i].(finished := false)];
    var pairs := WantedPairs(w.txs[p].id, p, wanted, 0, |w.txs[p].outs|, |jobs|);
    var jobs' := jobs + pairs;
    forall n, u | 1 <= n <= d && jobs'[n].finished && n !in errors && u in uses && u.pos == Firsts(uses)[n - 1]
      ensures exists m :: LooksUp(jobs', d, u, m)
    {
      if n == i {
        var k := WantedPairsCover(w.txs[p].id, p, wanted, 0, |w.txs[p].outs|, |jobs|, u.index);
        assert jobs'[|jobs| + 2 * k] == pairs[2 * k];
        assert LooksUp(jobs', d, u, |jobs| + 2 * k);
      } else {
        assert before[n].finished;
        var m :| LooksUp(before, d, u, m);
        assert LooksUp(jobs', d, u, m);
      }
    }
  }

  lemma {:induction false} FullDeliveryShape(w: Chain, uses: seq<Use>, s: Search, i: nat)
    requires ValidChain(w) && Listed(w, uses, s) && Enabled(w, s, Reply(i)) && 1 <= i <= |Firsts(uses)|
             && Firsts(uses)[i - 1] in s.txRefs
    ensures var p := Firsts(uses)[i - 1];
            var a := FillTx(w, s.jobs[i], i);
            var done := s.jobs[i := s.jobs[i].(finished := true)];
            && p in w.txs
            && Next(w, s, Reply(i)) == Ok(s.(answer := s.answer + [a],
                 jobs := done + WantedPairs(w.txs[p].id, p, s.txRefs[p].Keys, 0, |w.txs[p].outs|, |done|)))
  {
    var p := Firsts(uses)[i - 1];
    assert FullOk(s.jobs[i], p);
    var a := FillTx(w, s.jobs[i], i);
    assert a == Answer(i, p, Some(w.txs[p].id), Some(w.txs[p]), []);
    var done := s.jobs[i := s.jobs[i].(finished := true)];
    ScanAppendsWanted(a, s.txRefs[p].Keys, w.txs[p], done);
  }

  lemma {:induction false} ListedFullFetch(w: Chain, uses: seq<Use>, s: Search, i: nat)
    requires ValidChain(w) && Listed(w, uses, s) && Enabled(w, s, Reply(i)) && 1 <= i <= |Firsts(uses)|
    requires UsesInChain(w, uses)
    ensures Next(w, s, Reply(i)).Ok? && Listed(w, uses, Next(w, s, Reply(i)).s)
  {
    var p := Firsts(uses)[i - 1];
    WantedAre(w, uses, s.jobs, s.txRefs, p);
    FullDeliveryShape(w, uses, s, i);
    FullFetchParts(w, uses, s, i);
    var s1 := Next(w, s, Reply(i)).s;
    ListedForAnyAnswer(w, uses, s1.(answer := s.answer), s1.answer);
  }

  lemma {:induction false} FullFetchParts(w: Chain, uses: seq<Use>, s: Search, i: nat)
    requires ValidChain(w) && Listed(w, uses, s) && 1 <= i <= |Firsts(uses)| && InFlight(s.jobs[i])
    requires UsesInChain(w, uses) && Firsts(uses)[i - 1] in w.txs && Firsts(uses)[i - 1] in s.txRefs
    ensures var p := Firsts(uses)[i - 1];
            var done := s.jobs[i := s.jobs[i].(finished := true)];
            Listed(w, uses,
                   s.(jobs := done + WantedPairs(w.txs[p].id, p, s.txRefs[p].Keys, 0, |w.txs[p].outs|, |done|)))
  {
    var p := Firsts(uses)[i - 1];
    var wanted := s.txRefs[p].Keys;
    var done := s.jobs[i := s.jobs[i].(finished := true)];
    var pairs := WantedPairs(w.txs[p].id, p, wanted, 0, |w.txs[p].outs|, |done|);
    WantedAre(w, uses, s.jobs, s.txRefs, p);
    JobsKept(w, uses, s.jobs, i, s.jobs[i].(finished := true));
    PairsJoin(w, uses, done, p, wanted);
    DeliveryAgrees(s.jobs, i, |Firsts(uses)|, w.txs[p].id, p, wanted, |w.txs[p].outs|);
    AgreeKeepsRows(w, uses, s.jobs, done + pairs, s.txRefs);
    assert done[i := done[i].(finished := false)] == s.jobs;
    DeliveryCovers(w, uses, done, s.errors, i, p, wanted);
    assert i !in s.errors;
    DeliveryTraced(w, uses, s.jobs, s.errors, i, wanted);
    FlagErrors(s.jobs, s.errors, i, done[i], s.errors);
    JoinKeepsErrors(done, pairs, s.errors);
  }

  lemma {:induction false} JoinKeepsErrors(jobs: seq<Job>, more: seq<Job>, errors: set<nat>)
    requires ErrorsFinished(jobs, errors)
    ensures ErrorsFinished(jobs + more, errors)
  {
  }

  /** The outputs of the pairs are looked up in ascending order. */
  lemma {:induction false} WantedPairsAscend(id: Id, p: Pos, wanted: set<nat>, i: nat, n: nat, base: nat, k: nat,
                                             l: nat)
    requires k < l && 2 * l < |WantedPairs(id, p, wanted, i, n, base)|
    ensures var all := WantedPairs(id, p, wanted, i, n, base); all[2 * k].intData < all[2 * l].intData
    decreases n - i
  {
    var all := WantedPairs(id, p, wanted, i, n, base);
    if i in wanted {
      var rest := WantedPairs(id, p, wanted, i + 1, n, base + 2);
      assert all[2 * l] == rest[2 * (l - 1)];
      if k == 0 {
        var o := WantedPairsAt(id, p, wanted, i + 1, n, base + 2, l - 1);
      } else {
        assert all[2 * k] == rest[2 * (k - 1)];
        WantedPairsAscend(id, p, wanted, i + 1, n, base + 2, k - 1, l - 1);
      }
    } else {
      WantedPairsAscend(id, p, wanted, i + 1, n, base, k, l);
    }
  }

  /** What a pair that was just pushed looks up. */
  lemma {:induction false} NewPair(w: Chain, jobs: seq<Job>, d: nat, p: Pos, wanted: set<nat>, m: nat)
    requires p in w.txs && (|jobs| - d - 1) % 2 == 0 && |jobs| > d
    requires var pairs := WantedPairs(w.txs[p].id, p, wanted, 0, |w.txs[p].outs|, |jobs|);
             |jobs| <= m < |jobs| + |pairs| && IsLookup(d, m)
    ensures var pairs := WantedPairs(w.txs[p].id, p, wanted, 0, |w.txs[p].outs|, |jobs|);
            var k := (m - |jobs|) / 2;
            m == |jobs| + 2 * k && (jobs + pairs)[m] == pairs[2 * k] && KeyOf(pairs[2 * k]) == p
  {
    var pairs := WantedPairs(w.txs[p].id, p, wanted, 0, |w.txs[p].outs|, |jobs|);
    var k := (m - |jobs|) / 2;
    assert m == |jobs| + 2 * k;
    var o := WantedPairsAt(w.txs[p].id, p, wanted, 0, |w.txs[p].outs|, |jobs|, k);
  }

  /** No output of a transaction is looked up before the transaction is delivered. */
  lemma {:induction false} NotYetLookedUp(uses: seq<Use>, jobs: seq<Job>, errors: set<nat>, i: nat, m: nat)
    requires Traced(uses, jobs, errors) && 1 <= i <= |Firsts(uses)| && i < |jobs| && !jobs[i].finished
    requires m < |jobs| && IsLookup(|Firsts(uses)|, m)
    ensures KeyOf(jobs[m]) != Firsts(uses)[i - 1]
  {
    assert FullDone(uses, jobs, errors, KeyOf(jobs[m]));
    var n :| FullDoneAt(uses, jobs, errors, KeyOf(jobs[m]), n);
    FirstsAreDistinct(uses);
  }

  lemma {:induction false} DeliveryTraced(w: Chain, uses: seq<Use>, jobs: seq<Job>, errors: set<nat>, i: nat,
                                          wanted: set<nat>)
    requires JobsOk(w, uses, jobs) && Traced(uses, jobs, errors)
    requires 1 <= i <= |Firsts(uses)| && !jobs[i].finished && i !in errors && Firsts(uses)[i - 1] in w.txs
    ensures var p := Firsts(uses)[i - 1];
            Traced(uses, jobs[i := jobs[i].(finished := true)] +
                   WantedPairs(w.txs[p].id, p, wanted, 0, |w.txs[p].outs|, |jobs|), errors)
  {
    var d := |Firsts(uses)|;
    var p := Firsts(uses)[i - 1];
    var done := jobs[i := jobs[i].(finished := true)];
    var pairs := WantedPairs(w.txs[p].id, p, wanted, 0, |w.txs[p].outs|, |jobs|);
    var jobs' := done + pairs;
    forall m | 0 <= m < |jobs'| && IsLookup(d, m) ensures FullDone(uses, jobs', errors, KeyOf(jobs'[m])) {
      if m < |jobs| {
        assert FullDone(uses, jobs, errors, KeyOf(jobs[m]));
        var n :| FullDoneAt(uses, jobs, errors, KeyOf(jobs[m]), n);
        assert FullDoneAt(uses, jobs', errors, KeyOf(jobs'[m]), n);
      } else {
        NewPair(w, done, d, p, wanted, m);
        assert FullDoneAt(uses, jobs', errors, p, i);
      }
    }
    forall l, m | 0 <= l < m < |jobs'| && IsLookup(d, l) && IsLookup(d, m)
      ensures KeyOf(jobs'[l]) != KeyOf(jobs'[m]) || jobs'[l].intData != jobs'[m].intData
    {
      if m < |jobs| {
        assert jobs'[l] == jobs[l] && jobs'[m] == jobs[m];
      } else {
        NewPair(w, done, d, p, wanted, m);
        if l < |jobs| {
          NotYetLookedUp(uses, jobs, errors, i, l);
        } else {
          NewPair(w, done, d, p, wanted, l);
          WantedPairsAscend(w.txs[p].id, p, wanted, 0, |w.txs[p].outs|, |jobs|, (l - |jobs|) / 2, (m - |jobs|) / 2);
        }
      }
    }
  }

  lemma {:induction false} WantedAre(w: Chain, uses: seq<Use>, jobs: seq<Job>, txRefs: TxRefs, p: Pos)
    requires RowsOk(w, uses, jobs, txRefs) && p in Firsts(uses) && UsesInChain(w, uses)
    ensures p in txRefs
    ensures forall o: nat :: o in txRefs[p].Keys ==> Use(p, o) in uses
    ensures forall u :: u in uses && u.pos == p ==> p in w.txs && u.index in txRefs[p].Keys && u.index < |w.txs[p].outs|
  {
    TableHolds(uses);
    assert txRefs[p].Keys == Table(uses)[p].Keys;
    forall u | u in uses && u.pos == p ensures p in w.txs && u.index in txRefs[p].Keys && u.index < |w.txs[p].outs| {
      assert Use(p, u.index) == u;
    }
  }

  lemma {:induction false} DeliveryAgrees(jobs: seq<Job>, i: nat, d: nat, id: Id, p: Pos, wanted: set<nat>, n: nat)
    requires i < |jobs| && i <= d
    ensures var jobs' := jobs[i := jobs[i].(finished := true)] + WantedPairs(id, p, wanted, 0, n, |jobs|);
            Agree(jobs, jobs', d) && forall k :: |jobs| <= k < |jobs'| ==> !jobs'[k].finished
  {
    NewPairsUnfinished(id, p, wanted, 0, n, |jobs|);
    var pairs := WantedPairs(id, p, wanted, 0, n, |jobs|);
    var jobs' := jobs[i := jobs[i].(finished := true)] + pairs;
    forall k | |jobs| <= k < |jobs'| ensures !jobs'[k].finished { assert jobs'[k] == pairs[k - |jobs|]; }
  }

  // ---------------------------------------------------------------- a spent-lookup is answered

  function AfterSpent(w: Chain, jobs: seq<Job>, n: nat): seq<Job>
    requires n + 1 < |jobs|
  {
    var job := jobs[n];
    var done := jobs[n := job.(finished := true)];
    var p := Found(w, job);
    if p.height == -1 then done
    else done[n + 1 := done[n + 1].(intData := p.height, intData2 := p.offset, data := job.data)]
  }

  lemma {:induction false} SpentShape(w: Chain, uses: seq<Use>, s: Search, n: nat)
    requires ValidChain(w) && Listed(w, uses, s) && Enabled(w, s, Reply(n)) && IsLookup(|Firsts(uses)|, n)
    ensures LookupOk(w, uses, s.jobs, n) && KeyOf(s.jobs[n]) in s.txRefs
    ensures Next(w, s, Reply(n)) == Ok(s.(jobs := AfterSpent(w, s.jobs, n),
              txRefs := SetRow(s.txRefs, KeyOf(s.jobs[n]), s.jobs[n].intData, Resolved(Found(w, s.jobs[n])))))
  {
    assert LookupOk(w, uses, s.jobs, n);
    var u := Use(KeyOf(s.jobs[n]), s.jobs[n].intData);
    assert RowOk(w, s.jobs, |Firsts(uses)|, s.txRefs, u);
    assert Positive(u.pos);
    assert NamesRow(s.txRefs, s.jobs[n]);
  }

  lemma {:induction false} SpentKeepsJobs(w: Chain, uses: seq<Use>, jobs: seq<Job>, n: nat)
    requires JobsOk(w, uses, jobs) && n < |jobs| && IsLookup(|Firsts(uses)|, n) && InFlight(jobs[n])
             && LookupOk(w, uses, jobs, n)
    ensures JobsOk(w, uses, AfterSpent(w, jobs, n))
  {
    var d := |Firsts(uses)|;
    var jobs' := AfterSpent(w, jobs, n);
    assert !IsLookup(d, n + 1);
    forall k | 1 <= k <= d ensures FullOk(jobs'[k], Firsts(uses)[k - 1]) {
      assert FullOk(jobs[k], Firsts(uses)[k - 1]);
    }
    forall k | 0 <= k < |jobs'| && IsLookup(d, k) ensures LookupOk(w, uses, jobs', k) {
      assert LookupOk(w, uses, jobs, k);
      if k != n { assert jobs'[k] == jobs[k] && jobs'[k + 1] == jobs[k + 1]; }
    }
  }

  lemma {:induction false} SpentSetsRow(w: Chain, uses: seq<Use>, jobs: seq<Job>, txRefs: TxRefs, n: nat)
    requires RowsOk(w, uses, jobs, txRefs) && n < |jobs| && IsLookup(|Firsts(uses)|, n) && LookupOk(w, uses, jobs, n)
    ensures KeyOf(jobs[n]) in txRefs
    ensures RowsOk(w, uses, AfterSpent(w, jobs, n),
                   SetRow(txRefs, KeyOf(jobs[n]), jobs[n].intData, Resolved(Found(w, jobs[n]))))
  {
    var d := |Firsts(uses)|;
    var u := Use(KeyOf(jobs[n]), jobs[n].intData);
    var jobs' := AfterSpent(w, jobs, n);
    assert RowOk(w, jobs, d, txRefs, u);
    var refs := SetRow(txRefs, u.pos, u.index, Resolved(Found(w, jobs[n])));
    assert Found(w, jobs[n]) == Spender(w, u);
    assert !IsLookup(d, n + 1);
    assert LooksUp(jobs', d, u, n) && jobs'[n].finished;
    forall v | v in uses ensures RowOk(w, jobs', d, refs, v) {
      assert RowOk(w, jobs, d, txRefs, v);
      if v != u { SpentElsewhere(w, jobs, n, d, u, v); }
    }
  }

  lemma {:induction false} SpentElsewhere(w: Chain, jobs: seq<Job>, n: nat, d: nat, u: Use, v: Use)
    requires n + 1 < |jobs| && IsLookup(d, n) && u == Use(KeyOf(jobs[n]), u.index) && jobs[n].intData == u.index
             && v != u
    ensures LookedUp(AfterSpent(w, jobs, n), d, v) == LookedUp(jobs, d, v)
  {
    var jobs' := AfterSpent(w, jobs, n);
    assert !IsLookup(d, n + 1);
    if LookedUp(jobs, d, v) {
      var k :| LooksUp(jobs, d, v, k) && jobs[k].finished;
      assert LooksUp(jobs', d, v, k) && jobs'[k].finished;
    }
    if LookedUp(jobs', d, v) {
      var k :| LooksUp(jobs', d, v, k) && jobs'[k].finished;
      assert k != n;
      assert LooksUp(jobs, d, v, k) && jobs[k].finished;
    }
  }

  lemma {:induction false} ListedSpent(w: Chain, uses: seq<Use>, s: Search, n: nat)
    requires ValidChain(w) && Listed(w, uses, s) && Enabled(w, s, Reply(n)) && IsLookup(|Firsts(uses)|, n)
    ensures Next(w, s, Reply(n)).Ok? && Listed(w, uses, Next(w, s, Reply(n)).s)
  {
    SpentShape(w, uses, s, n);
    SpentParts(w, uses, s, n);
  }

  lemma {:induction false} SpentParts(w: Chain, uses: seq<Use>, s: Search, n: nat)
    requires Listed(w, uses, s) && n < |s.jobs| && IsLookup(|Firsts(uses)|, n) && InFlight(s.jobs[n])
             && LookupOk(w, uses, s.jobs, n)
    requires KeyOf(s.jobs[n]) in s.txRefs
    ensures Listed(w, uses, s.(jobs := AfterSpent(w, s.jobs, n),
              txRefs := SetRow(s.txRefs, KeyOf(s.jobs[n]), s.jobs[n].intData, Resolved(Found(w, s.jobs[n])))))
  {
    SpentKeepsJobs(w, uses, s.jobs, n);
    SpentSetsRow(w, uses, s.jobs, s.txRefs, n);
    SpentKeepsCover(w, uses, s.jobs, s.errors, n);
    SpentKeepsTraced(w, uses, s.jobs, s.errors, n);
    SpentKeepsErrors(w, s.jobs, s.errors, n);
  }

  lemma {:induction false} SpentKeepsErrors(w: Chain, jobs: seq<Job>, errors: set<nat>, n: nat)
    requires n + 1 < |jobs| && ErrorsFinished(jobs, errors)
    ensures ErrorsFinished(AfterSpent(w, jobs, n), errors)
  {
  }

  lemma {:induction false} SpentKeepsTraced(w: Chain, uses: seq<Use>, jobs: seq<Job>, errors: set<nat>, n: nat)
    requires Traced(uses, jobs, errors) && n + 1 < |jobs| && IsLookup(|Firsts(uses)|, n)
    ensures Traced(uses, AfterSpent(w, jobs, n), errors)
  {
    assert !IsLookup(|Firsts(uses)|, n + 1);
    TracedKept(uses, jobs, errors, AfterSpent(w, jobs, n), errors);
  }

  lemma {:induction false} SpentKeepsCover(w: Chain, uses: seq<Use>, jobs: seq<Job>, errors: set<nat>, n: nat)
    requires Covered(uses, jobs, errors) && n + 1 < |jobs| && IsLookup(|Firsts(uses)|, n)
    ensures Covered(uses, AfterSpent(w, jobs, n), errors)
  {
    var d := |Firsts(uses)|;
    var jobs' := AfterSpent(w, jobs, n);
    assert !IsLookup(d, n + 1);
    forall k, u | 1 <= k <= d && jobs'[k].finished && k !in errors && u in uses && u.pos == Firsts(uses)[k - 1]
      ensures exists m :: LooksUp(jobs', d, u, m)
    {
      var m :| LooksUp(jobs, d, u, m);
      assert LooksUp(jobs', d, u, m);
    }
  }

  // ---------------------------------------------------------------- whole runs

  lemma {:induction false} UsesAreInChain(w: Chain, script: Id)
    requires ValidChain(w)
    ensures UsesInChain(w, UsesOf(w, script))
    ensures forall p :: p in Firsts(UsesOf(w, script)) ==> Positive(p)
  {
    FirstsAreDistinct(UsesOf(w, script));
  }

  lemma {:induction false} ListedSteps(w: Chain, script: Id, s: Search, e: Event)
    requires ValidChain(w) && Listed(w, UsesOf(w, script), s) && Enabled(w, s, e)
    ensures Next(w, s, e).Ok? && Listed(w, UsesOf(w, script), Next(w, s, e).s)
  {
    var uses := UsesOf(w, script);
    UsesAreInChain(w, script);
    Kinds(w, uses, s.jobs, e.job);
    match e {
      case Start(i) => ListedStarts(w, uses, s, i);
      case Fail(i) => ListedFails(w, uses, s, i);
      case Reply(i) =>
        if i <= |Firsts(uses)| {
          ListedFullFetch(w, uses, s, i);
        } else if IsLookup(|Firsts(uses)|, i) {
          ListedSpent(w, uses, s, i);
        } else {
          ListedSpenderFetch(w, uses, s, i);
        }
    }
  }

  lemma {:induction false} TxsRunFrom(w: Chain, script: Id, s: Search, events: seq<Event>)
    requires ValidChain(w) && TxsInv(w, script, s) && ValidRun(w, s, events)
    ensures Run(w, s, events).Ok? && TxsInv(w, script, Run(w, s, events).s)
    decreases events
  {
    if events != [] {
      if Waiting(AddressTxs, script, s) {
        WaitingSteps(w, AddressTxs, script, s, events[0]);
        var s' := Next(w, s, events[0]).s;
        if !Waiting(AddressTxs, script, s') { UsesArrive(w, script, s.jobs[0].(finished := true), s'); }
      } else {
        ListedSteps(w, script, s, events[0]);
      }
      TxsRunFrom(w, script, Next(w, s, events[0]).s, events[1..]);
    }
  }

  /** No run of an AddressTxs request fails an assertion. */
  lemma {:induction false} AddressTxsNeverCrashes(w: Chain, script: Id, events: seq<Event>)
    requires ValidChain(w) && ValidRun(w, AddressRequest(AddressTxs, script), events)
    ensures Run(w, AddressRequest(AddressTxs, script), events).Ok?
    ensures TxsInv(w, script, Run(w, AddressRequest(AddressTxs, script), events).s)
  {
    TxsRunFrom(w, script, AddressRequest(AddressTxs, script), events);
  }

  predicate IsFullFetch(job: Job, p: Pos) {
    job.kind.FetchTx? && job.filter.IncludeFullTransactionData? && PlaceOf(job) == p
  }

  lemma {:induction false} FullFetchIff(w: Chain, uses: seq<Use>, jobs: seq<Job>, p: Pos, n: nat)
    requires ValidChain(w) && JobsOk(w, uses, jobs) && forall q :: q in Firsts(uses) ==> Positive(q)
    requires 0 < n < |jobs|
    ensures IsFullFetch(jobs[n], p) <==> IsFirst(uses, p, n)
  {
    Kinds(w, uses, jobs, n);
  }

  /** Job `n` is the one for the `n`-th transaction of the address, and that is `p`. */
  predicate IsFirst(uses: seq<Use>, p: Pos, n: int) { 1 <= n <= |Firsts(uses)| && Firsts(uses)[n - 1] == p }

  lemma {:induction false} OneFirst(uses: seq<Use>, p: Pos, m: int, n: int)
    requires IsFirst(uses, p, m) && IsFirst(uses, p, n)
    ensures m == n
  {
    FirstsAreDistinct(uses);
  }

  lemma {:induction false} FirstInTable(uses: seq<Use>, p: Pos)
    ensures p in Table(uses) <==> exists n: nat :: IsFirst(uses, p, n)
  {
    TableHolds(uses);
    FirstsAreDistinct(uses);
    if p in Table(uses) {
      var k :| 0 <= k < |Firsts(uses)| && Firsts(uses)[k] == p;
      assert IsFirst(uses, p, k + 1);
    }
  }

  /** After the address has been resolved, in every reachable state each transaction in the table has exactly one full
      fetch, and there is no other full fetch. */
  lemma {:induction false} OneFullFetchPerTransaction(w: Chain, script: Id, s: Search, p: Pos)
    requires ValidChain(w) && Listed(w, UsesOf(w, script), s)
    ensures p in s.txRefs <==> exists n :: 0 < n < |s.jobs| && IsFullFetch(s.jobs[n], p)
    ensures forall m, n ::
              0 < m < |s.jobs| && 0 < n < |s.jobs| && IsFullFetch(s.jobs[m], p) && IsFullFetch(s.jobs[n], p) ==> m == n
  {
    var uses := UsesOf(w, script);
    UsesAreInChain(w, script);
    assert s.txRefs.Keys == Table(uses).Keys && |s.jobs| > |Firsts(uses)|;
    FullFetchesAreFirsts(w, uses, s.jobs, p);
    FirstInTable(uses, p);
  }

  lemma {:induction false} FullFetchesAreFirsts(w: Chain, uses: seq<Use>, jobs: seq<Job>, p: Pos)
    requires ValidChain(w) && JobsOk(w, uses, jobs) && forall q :: q in Firsts(uses) ==> Positive(q)
    ensures (exists n: nat :: IsFirst(uses, p, n)) <==> exists n :: 0 < n < |jobs| && IsFullFetch(jobs[n], p)
    ensures forall m, n ::
              0 < m < |jobs| && 0 < n < |jobs| && IsFullFetch(jobs[m], p) && IsFullFetch(jobs[n], p) ==> m == n
  {
    forall n: nat | 0 < n < |jobs| ensures IsFullFetch(jobs[n], p) <==> IsFirst(uses, p, n) {
      FullFetchIff(w, uses, jobs, p, n);
    }
    forall m, n | 0 < m < |jobs| && 0 < n < |jobs| && IsFullFetch(jobs[m], p) && IsFullFetch(jobs[n], p)
      ensures m == n
    {
      OneFirst(uses, p, m, n);
    }
    if n: nat :| IsFirst(uses, p, n) { assert IsFullFetch(jobs[n], p); }
  }

  lemma {:induction false} FirstIndex(uses: seq<Use>, u: Use) returns (j: nat)
    requires u in uses
    ensures j < |Firsts(uses)| && Firsts(uses)[j] == u.pos
  {
    FirstsAreDistinct(uses);
    var k :| 0 <= k < |uses| && uses[k] == u;
    assert u.pos in Firsts(uses);
    j :| 0 <= j < |Firsts(uses)| && Firsts(uses)[j] == u.pos;
  }

  /** The full fetch of the transaction, which is job `n` for the n-th transaction of the address, did not fail. */
  ghost predicate FullFetched(uses: seq<Use>, errors: set<nat>, p: Pos) {
    exists n :: 1 <= n <= |Firsts(uses)| && Firsts(uses)[n - 1] == p && n !in errors
  }

  lemma {:induction false} FullDoneIff(w: Chain, script: Id, s: Search, p: Pos)
    requires ValidChain(w) && Listed(w, UsesOf(w, script), s) && SearchFinished(s)
    ensures FullDone(UsesOf(w, script), s.jobs, s.errors, p) <==> FullFetched(UsesOf(w, script), s.errors, p)
  {
    var uses := UsesOf(w, script);
    UsesAreInChain(w, script);
    if FullDone(uses, s.jobs, s.errors, p) {
      var n :| FullDoneAt(uses, s.jobs, s.errors, p, n);
      assert Firsts(uses)[n - 1] == p;
    }
    if n :| 1 <= n <= |Firsts(uses)| && Firsts(uses)[n - 1] == p && n !in s.errors {
      Kinds(w, uses, s.jobs, n);
      assert !InFlight(s.jobs[n]) && !Startable(s.jobs[n]);
      assert FullDoneAt(uses, s.jobs, s.errors, p, n);
    }
  }

  /** Once finished, the spender of an output has been looked up exactly when the full fetch of its transaction did
      not fail. */
  lemma {:induction false} LookedUpIff(w: Chain, script: Id, s: Search, u: Use)
    requires ValidChain(w) && Listed(w, UsesOf(w, script), s) && SearchFinished(s) && u in UsesOf(w, script)
    ensures (exists m :: LooksUp(s.jobs, |Firsts(UsesOf(w, script))|, u, m)) <==>
            FullFetched(UsesOf(w, script), s.errors, u.pos)
  {
    var uses := UsesOf(w, script);
    var d := |Firsts(uses)|;
    FullDoneIff(w, script, s, u.pos);
    if m :| LooksUp(s.jobs, d, u, m) { assert FullDone(uses, s.jobs, s.errors, KeyOf(s.jobs[m])); }
    if FullDone(uses, s.jobs, s.errors, u.pos) {
      var n :| FullDoneAt(uses, s.jobs, s.errors, u.pos, n);
      assert s.jobs[n].finished && Firsts(uses)[n - 1] == u.pos;
    }
  }

  lemma {:induction false} LookupOf(w: Chain, script: Id, s: Search, u: Use) returns (m: nat)
    requires ValidChain(w) && Listed(w, UsesOf(w, script), s) && SearchFinished(s) && u in UsesOf(w, script)
    requires FullFetched(UsesOf(w, script), s.errors, u.pos)
    ensures LooksUp(s.jobs, |Firsts(UsesOf(w, script))|, u, m)
  {
    LookedUpIff(w, script, s, u);
    m :| LooksUp(s.jobs, |Firsts(UsesOf(w, script))|, u, m);
  }

  /** Once an AddressTxs search has finished, whatever failed in it, every output of the address carries its true
      spender, -2 when it is unspent, exactly when the full fetch of its transaction did not fail; otherwise it is
      still unknown. */
  lemma {:induction false} TableAfterAnyRun(w: Chain, script: Id, s: Search, u: Use)
    requires ValidChain(w) && Listed(w, UsesOf(w, script), s) && SearchFinished(s) && u in UsesOf(w, script)
    ensures u.pos in s.txRefs && u.index in s.txRefs[u.pos]
    ensures s.txRefs[u.pos][u.index] ==
            if FullFetched(UsesOf(w, script), s.errors, u.pos) then Resolved(Spender(w, u)) else UNKNOWN
    ensures UNKNOWN == Pos(-1, 0) && u.pos in w.txs
    ensures Resolved(Spender(w, u)) ==
            if (w.txs[u.pos].id, u.index) in w.spent then w.spent[(w.txs[u.pos].id, u.index)] else Pos(-2, 0)
  {
    var uses := UsesOf(w, script);
    var d := |Firsts(uses)|;
    UsesAreInChain(w, script);
    assert u.pos in w.txs by { var k :| 0 <= k < |uses| && uses[k] == u; }
    LookedUpIff(w, script, s, u);
    assert RowOk(w, s.jobs, d, s.txRefs, u);
    if m :| LooksUp(s.jobs, d, u, m) {
      assert LookupOk(w, uses, s.jobs, m);
      assert !InFlight(s.jobs[m]) && !Startable(s.jobs[m]);
      assert LookedUp(s.jobs, d, u);
    }
  }
}
