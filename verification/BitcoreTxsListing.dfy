/**
 The transactions of an address (AddressTxs): how often each output is listed, and whether the listed transactions
 carry their data.
 */
module BitcoreTxsListing {
  import opened BitcoreSearch
  import opened BitcoreAddress
  import opened BitcoreAddressTxs
  import opened BitcoreListing
  import opened BitcoreCoinsAnswer
  import opened Counting
  import opened Options

  // ---------------------------------------------------------------- deliveries and jobs

  /** The answer was delivered by a finished fetch, with the data that fetch asked for. */
  predicate FromJob(w: Chain, jobs: seq<Job>, errors: set<nat>, a: Answer) {
    && 0 < a.jobId < |jobs| && a.jobId !in errors
    && var job := jobs[a.jobId];
       && job.kind.FetchTx? && job.finished && a.pos == PlaceOf(job) && a.pos in w.txs
       && a.txid == Some(w.txs[a.pos].id)
       && a.full == if job.filter.IncludeFullTransactionData? then Some(w.txs[a.pos]) else None
  }

  /** Job `i` is a fetch of `p` that finished without failing. */
  predicate FetchedAt(jobs: seq<Job>, errors: set<nat>, p: Pos, i: int) {
    0 < i < |jobs| && jobs[i].kind.FetchTx? && jobs[i].finished && i !in errors && PlaceOf(jobs[i]) == p
  }

  ghost function Fetches(jobs: seq<Job>, errors: set<nat>, p: Pos): nat {
    Count(i => FetchedAt(jobs, errors, p, i), 1, |jobs|)
  }

  ghost predicate HasAnswer(answer: seq<Answer>, i: nat) { exists j :: 0 <= j < |answer| && answer[j].jobId == i }

  /** Every fetch that finished without failing delivered an answer, there are no others, and a transaction was
      delivered as often as there are such fetches of it. */
  ghost predicate Matched(w: Chain, jobs: seq<Job>, errors: set<nat>, answer: seq<Answer>) {
    && (forall j :: 0 <= j < |answer| ==> FromJob(w, jobs, errors, answer[j]))
    && (forall i: nat :: 0 < i < |jobs| && FetchedAt(jobs, errors, PlaceOf(jobs[i]), i) ==> HasAnswer(answer, i))
    && (forall p :: Deliveries(answer, p) == Fetches(jobs, errors, p))
  }

  /** All jobs but `i` keep what they are, whether they have finished, and then their place; new jobs are unfinished. */
  ghost predicate Evolves(jobs: seq<Job>, jobs': seq<Job>, i: nat) {
    && |jobs| <= |jobs'|
    && (forall n :: 0 <= n < |jobs| && n != i ==>
          && jobs'[n].kind == jobs[n].kind && jobs'[n].filter == jobs[n].filter && jobs'[n].finished == jobs[n].finished
          && (jobs[n].finished ==> PlaceOf(jobs'[n]) == PlaceOf(jobs[n])))
    && (forall n :: |jobs| <= n < |jobs'| ==> !jobs'[n].finished)
  }

  lemma {:induction false} AnswersCarryOver(w: Chain, jobs: seq<Job>, errors: set<nat>, answer: seq<Answer>,
                                            jobs': seq<Job>,
                                            errors': set<nat>, i: nat)
    requires Matched(w, jobs, errors, answer) && Evolves(jobs, jobs', i) && i < |jobs| && !jobs[i].finished
    requires errors <= errors' <= errors + {i}
    ensures forall j :: 0 <= j < |answer| ==> FromJob(w, jobs', errors', answer[j])
    ensures forall n: nat ::
              0 < n < |jobs'| && n != i && FetchedAt(jobs', errors', PlaceOf(jobs'[n]), n) ==> HasAnswer(answer, n)
  {
    forall j | 0 <= j < |answer| ensures FromJob(w, jobs', errors', answer[j]) {
      assert FromJob(w, jobs, errors, answer[j]);
    }
    forall n: nat | 0 < n < |jobs'| && n != i && FetchedAt(jobs', errors', PlaceOf(jobs'[n]), n)
      ensures HasAnswer(answer, n)
    {
      assert FetchedAt(jobs, errors, PlaceOf(jobs[n]), n);
    }
  }

  lemma {:induction false} OthersFetchedTheSame(jobs: seq<Job>, errors: set<nat>, jobs': seq<Job>, errors': set<nat>,
                                                i: nat, p: Pos, n: int)
    requires Evolves(jobs, jobs', i) && i < |jobs| && n != i && 1 <= n < |jobs| && errors <= errors' <= errors + {i}
    ensures FetchedAt(jobs', errors', p, n) == FetchedAt(jobs, errors, p, n)
  {
  }

  /** The fetches after a step on job `i`: one more if it now is a fetch that finished without failing. */
  lemma {:induction false} FetchesAfter(jobs: seq<Job>, errors: set<nat>, jobs': seq<Job>, errors': set<nat>, i: nat,
                                        p: Pos)
    requires Evolves(jobs, jobs', i) && 0 < i < |jobs| && !jobs[i].finished && errors <= errors' <= errors + {i}
    ensures Fetches(jobs', errors', p) == Fetches(jobs, errors, p) + if FetchedAt(jobs', errors', p, i) then 1 else 0
  {
    var f, g := (n: int) => FetchedAt(jobs, errors, p, n), (n: int) => FetchedAt(jobs', errors', p, n);
    forall n | 1 <= n < |jobs| && n != i ensures f(n) == g(n) {
      OthersFetchedTheSame(jobs, errors, jobs', errors', i, p, n);
    }
    if FetchedAt(jobs', errors', p, i) { CountOneMore(f, g, 1, |jobs|, i); } else { CountSame(f, g, 1, |jobs|); }
    CountRest(g, 1, |jobs|, |jobs'|);
    assert Fetches(jobs, errors, p) == Count(f, 1, |jobs|);
    assert Fetches(jobs', errors', p) == Count(g, 1, |jobs'|);
  }

  /** A step that delivers nothing. */
  lemma {:induction false} NothingDelivered(w: Chain, jobs: seq<Job>, errors: set<nat>, answer: seq<Answer>,
                                            jobs': seq<Job>,
                                            errors': set<nat>, i: nat)
    requires Matched(w, jobs, errors, answer) && Evolves(jobs, jobs', i) && 0 < i < |jobs| && !jobs[i].finished
    requires errors <= errors' <= errors + {i} && (i in errors' || !jobs'[i].finished || !jobs'[i].kind.FetchTx?)
    ensures Matched(w, jobs', errors', answer)
  {
    AnswersCarryOver(w, jobs, errors, answer, jobs', errors', i);
    forall p ensures Deliveries(answer, p) == Fetches(jobs', errors', p) {
      FetchesAfter(jobs, errors, jobs', errors', i, p);
    }
  }

  lemma {:induction false} OneMoreDelivery(answer: seq<Answer>, a: Answer, p: Pos)
    ensures Deliveries(answer + [a], p) == Deliveries(answer, p) + if a.pos == p then 1 else 0
  {
    assert (answer + [a])[..|answer|] == answer;
  }

  /** A step that delivers the answer of job `i`. */
  lemma {:induction false} OneDelivered(w: Chain, jobs: seq<Job>, errors: set<nat>, answer: seq<Answer>,
                                        jobs': seq<Job>, i: nat, a: Answer)
    requires Matched(w, jobs, errors, answer) && Evolves(jobs, jobs', i) && 0 < i < |jobs| && !jobs[i].finished
    requires a.jobId == i && FromJob(w, jobs', errors, a)
    ensures Matched(w, jobs', errors, answer + [a])
  {
    AnswersCarryOver(w, jobs, errors, answer, jobs', errors, i);
    var answer' := answer + [a];
    forall n: nat | 0 < n < |jobs'| && FetchedAt(jobs', errors, PlaceOf(jobs'[n]), n) ensures HasAnswer(answer', n) {
      if n == i {
        assert answer'[|answer|].jobId == n;
      } else {
        var j :| 0 <= j < |answer| && answer[j].jobId == n;
        assert answer'[j].jobId == n;
      }
    }
    forall p ensures Deliveries(answer + [a], p) == Fetches(jobs', errors, p) {
      FetchesAfter(jobs, errors, jobs', errors, i, p);
      OneMoreDelivery(answer, a, p);
    }
  }

  // ---------------------------------------------------------------- steps

  lemma {:induction false} StartMatches(w: Chain, uses: seq<Use>, s: Search, i: nat)
    requires ValidChain(w) && Listed(w, uses, s) && Enabled(w, s, Start(i))
             && forall p :: p in Firsts(uses) ==> Positive(p)
    requires Matched(w, s.jobs, s.errors, s.answer)
    ensures Matched(w, StartJob(s, i).jobs, s.errors, s.answer)
  {
    Kinds(w, uses, s.jobs, i);
    assert StartJob(s, i).jobs == s.jobs[i := s.jobs[i].(started := true)];
    NothingDelivered(w, s.jobs, s.errors, s.answer, StartJob(s, i).jobs, s.errors, i);
  }

  lemma {:induction false} SpentMatches(w: Chain, uses: seq<Use>, s: Search, n: nat)
    requires ValidChain(w) && Listed(w, uses, s) && Enabled(w, s, Reply(n)) && IsLookup(|Firsts(uses)|, n)
    requires Matched(w, s.jobs, s.errors, s.answer)
    ensures Next(w, s, Reply(n)).Ok?
    ensures var s' := Next(w, s, Reply(n)).s; Matched(w, s'.jobs, s'.errors, s'.answer)
  {
    SpentShape(w, uses, s, n);
    SpentDelivers(w, uses, s.jobs, s.errors, s.answer, n);
  }

  lemma {:induction false} SpentDelivers(w: Chain, uses: seq<Use>, jobs: seq<Job>, errors: set<nat>,
                                         answer: seq<Answer>,
                                         n: nat)
    requires n + 1 < |jobs| && IsLookup(|Firsts(uses)|, n) && InFlight(jobs[n]) && LookupOk(w, uses, jobs, n)
    requires Matched(w, jobs, errors, answer)
    ensures Matched(w, AfterSpent(w, jobs, n), errors, answer)
  {
    assert !jobs[n + 1].finished;
    NothingDelivered(w, jobs, errors, answer, AfterSpent(w, jobs, n), errors, n);
  }

  lemma {:induction false} SpenderFetchMatches(w: Chain, uses: seq<Use>, s: Search, i: nat)
    requires ValidChain(w) && Listed(w, uses, s) && Enabled(w, s, Reply(i))
             && forall p :: p in Firsts(uses) ==> Positive(p)
    requires i > |Firsts(uses)| && !IsLookup(|Firsts(uses)|, i) && Matched(w, s.jobs, s.errors, s.answer)
    ensures Next(w, s, Reply(i)).Ok?
    ensures var s' := Next(w, s, Reply(i)).s; Matched(w, s'.jobs, s'.errors, s'.answer)
  {
    Kinds(w, uses, s.jobs, i);
    SpenderFetchShape(w, s, i);
    assert i !in s.errors;
    SpenderDelivered(w, s, i);
  }

  lemma {:induction false} SpenderDelivered(w: Chain, s: Search, i: nat)
    requires Enabled(w, s, Reply(i)) && s.jobs[i].kind.FetchTx? && s.jobs[i].filter.IncludeTxId? && i > 0
             && i !in s.errors
    requires Matched(w, s.jobs, s.errors, s.answer)
    ensures Matched(w, s.jobs[i := s.jobs[i].(finished := true)], s.errors, s.answer + [FillTx(w, s.jobs[i], i)])
  {
    var jobs' := s.jobs[i := s.jobs[i].(finished := true)];
    OneDelivered(w, s.jobs, s.errors, s.answer, jobs', i, FillTx(w, s.jobs[i], i));
  }

  lemma {:induction false} FullFetchMatches(w: Chain, uses: seq<Use>, s: Search, i: nat)
    requires ValidChain(w) && Listed(w, uses, s) && Enabled(w, s, Reply(i)) && 1 <= i <= |Firsts(uses)|
    requires Firsts(uses)[i - 1] in s.txRefs && Matched(w, s.jobs, s.errors, s.answer)
    ensures Next(w, s, Reply(i)).Ok?
    ensures var s' := Next(w, s, Reply(i)).s; Matched(w, s'.jobs, s'.errors, s'.answer)
  {
    FullDeliveryShape(w, uses, s, i);
    var p := Firsts(uses)[i - 1];
    assert FullOk(s.jobs[i], p);
    var a := FillTx(w, s.jobs[i], i);
    var done := s.jobs[i := s.jobs[i].(finished := true)];
    var pairs := WantedPairs(w.txs[p].id, p, s.txRefs[p].Keys, 0, |w.txs[p].outs|, |done|);
    NewPairsUnfinished(w.txs[p].id, p, s.txRefs[p].Keys, 0, |w.txs[p].outs|, |done|);
    PairsEvolve(s.jobs, done, pairs, i);
    assert i !in s.errors;
    OneDelivered(w, s.jobs, s.errors, s.answer, done + pairs, i, a);
  }

  lemma {:induction false} PairsEvolve(jobs: seq<Job>, done: seq<Job>, pairs: seq<Job>, i: nat)
    requires i < |jobs| == |done| && done == jobs[i := done[i]] && forall k :: 0 <= k < |pairs| ==> !pairs[k].finished
    ensures Evolves(jobs, done + pairs, i)
  {
    var jobs' := done + pairs;
    forall n | |jobs| <= n < |jobs'| ensures !jobs'[n].finished { assert jobs'[n] == pairs[n - |jobs|]; }
  }

  lemma {:induction false} StepMatches(w: Chain, script: Id, s: Search, e: Event)
    requires ValidChain(w) && Listed(w, UsesOf(w, script), s) && Enabled(w, s, e)
             && Matched(w, s.jobs, s.errors, s.answer)
    ensures Next(w, s, e).Ok?
    ensures var s' := Next(w, s, e).s; Matched(w, s'.jobs, s'.errors, s'.answer)
  {
    var uses := UsesOf(w, script);
    UsesAreInChain(w, script);
    Kinds(w, uses, s.jobs, e.job);
    match e {
      case Start(i) => StartMatches(w, uses, s, i);
      case Fail(i) => NothingDelivered(w, s.jobs, s.errors, s.answer, s.jobs[i := s.jobs[i].(finished := true)],
                                       s.errors + {i}, i);
      case Reply(i) =>
        if i <= |Firsts(uses)| {
          WantedAre(w, uses, s.jobs, s.txRefs, Firsts(uses)[i - 1]);
          FullFetchMatches(w, uses, s, i);
        } else if IsLookup(|Firsts(uses)|, i) {
          SpentMatches(w, uses, s, i);
        } else {
          SpenderFetchMatches(w, uses, s, i);
        }
    }
  }

  // ---------------------------------------------------------------- whole runs

  ghost predicate AnswersInv(w: Chain, script: Id, s: Search) {
    || Waiting(AddressTxs, script, s)
    || (Listed(w, UsesOf(w, script), s) && Matched(w, s.jobs, s.errors, s.answer))
  }

  lemma {:induction false} UsesArriveUnanswered(w: Chain, script: Id, first: Job, s: Search)
    requires s.jobs == [first] + JobsFor(AddressTxs, UsesOf(w, script)) && s.answer == []
    ensures Matched(w, s.jobs, s.errors, s.answer)
  {
    FetchesFollow(first, UsesOf(w, script), s.jobs);
    forall p ensures Fetches(s.jobs, s.errors, p) == 0 { NoneFetched(s.jobs, s.errors, p); }
  }

  lemma {:induction false} NoneFetched(jobs: seq<Job>, errors: set<nat>, p: Pos)
    requires forall n :: 1 <= n < |jobs| ==> !jobs[n].finished
    ensures Fetches(jobs, errors, p) == 0
  {
    CountNone(i => FetchedAt(jobs, errors, p, i), 1, |jobs|);
  }

  lemma {:induction false} RunMatches(w: Chain, script: Id, s: Search, events: seq<Event>)
    requires ValidChain(w) && AnswersInv(w, script, s) && ValidRun(w, s, events)
    ensures Run(w, s, events).Ok? && AnswersInv(w, script, Run(w, s, events).s)
    decreases events
  {
    if events != [] {
      if Waiting(AddressTxs, script, s) {
        WaitingSteps(w, AddressTxs, script, s, events[0]);
        var s' := Next(w, s, events[0]).s;
        if !Waiting(AddressTxs, script, s') {
          UsesArrive(w, script, s.jobs[0].(finished := true), s');
          UsesArriveUnanswered(w, script, s.jobs[0].(finished := true), s');
        }
      } else {
        ListedSteps(w, script, s, events[0]);
        StepMatches(w, script, s, events[0]);
      }
      RunMatches(w, script, Next(w, s, events[0]).s, events[1..]);
    }
  }

  // ---------------------------------------------------------------- the finished answer

  /** The search has ended. */
  ghost predicate Complete(w: Chain, script: Id, s: Search) {
    Listed(w, UsesOf(w, script), s) && Matched(w, s.jobs, s.errors, s.answer) && SearchFinished(s)
  }

  /** The output whose spender job `m` looks up. */
  function UseAt(jobs: seq<Job>, m: int): Use {
    if 0 <= m < |jobs| && jobs[m].intData >= 0 then Use(KeyOf(jobs[m]), jobs[m].intData) else Use(UNKNOWN, 0)
  }

  /** Job `i` fetches the spender of an output, the spender is at `p`, and the fetch did not fail. */
  predicate SpenderFetchAt(w: Chain, d: nat, jobs: seq<Job>, errors: set<nat>, p: Pos, i: int) {
    d < i < |jobs| && !IsLookup(d, i) && Spender(w, UseAt(jobs, i - 1)) == p && i !in errors
  }

  /** How many fetches of `p` as the spender of an output of the address did not fail. */
  ghost function SpenderFetches(w: Chain, uses: seq<Use>, s: Search, p: Pos): nat {
    Count(i => SpenderFetchAt(w, |Firsts(uses)|, s.jobs, s.errors, p, i), |Firsts(uses)| + 1, |s.jobs|)
  }

  predicate Settled(job: Job) { !InFlight(job) && !Startable(job) }

  ghost predicate AllSettled(jobs: seq<Job>) { forall i :: 0 <= i < |jobs| ==> Settled(jobs[i]) }

  lemma {:induction false} FinishedIsSettled(s: Search)
    requires SearchFinished(s)
    ensures AllSettled(s.jobs)
  {
  }

  lemma {:induction false} FullFetchAt(w: Chain, uses: seq<Use>, jobs: seq<Job>, errors: set<nat>, p: Pos, i: nat)
    requires ValidChain(w) && JobsOk(w, uses, jobs) && AllSettled(jobs) && 1 <= i <= |Firsts(uses)|
    requires forall q :: q in Firsts(uses) ==> Positive(q)
    ensures FetchedAt(jobs, errors, p, i) <==> Firsts(uses)[i - 1] == p && i !in errors
  {
    Kinds(w, uses, jobs, i);
    assert Settled(jobs[i]);
  }

  /** A settled lookup and the fetch after it: the fetch has finished exactly when a spender was found, and then at
      its place. */
  lemma {:induction false} SettledPair(w: Chain, uses: seq<Use>, jobs: seq<Job>, m: nat)
    requires ValidChain(w) && m < |jobs| && LookupOk(w, uses, jobs, m) && Settled(jobs[m]) && Settled(jobs[m + 1])
    ensures jobs[m + 1].kind.FetchTx? && UseAt(jobs, m) in uses
    ensures forall p ::
              Positive(p) ==> (jobs[m + 1].finished && PlaceOf(jobs[m + 1]) == p <==> Spender(w, UseAt(jobs, m)) == p)
  {
    assert Found(w, jobs[m]) == Spender(w, UseAt(jobs, m));
    if Found(w, jobs[m]).height != -1 { assert Found(w, jobs[m]) in w.txs; }
  }

  lemma {:induction false} LaterFetchAt(w: Chain, uses: seq<Use>, jobs: seq<Job>, errors: set<nat>, p: Pos, i: nat)
    requires ValidChain(w) && JobsOk(w, uses, jobs) && AllSettled(jobs) && Positive(p) && |Firsts(uses)| < i < |jobs|
    ensures FetchedAt(jobs, errors, p, i) <==> SpenderFetchAt(w, |Firsts(uses)|, jobs, errors, p, i)
  {
    var d := |Firsts(uses)|;
    assert Settled(jobs[i - 1]) && Settled(jobs[i]);
    if IsLookup(d, i) {
      assert LookupOk(w, uses, jobs, i);
    } else {
      assert IsLookup(d, i - 1);
      SettledPair(w, uses, jobs, i - 1);
    }
  }

  lemma {:induction false} OneOfTheFirsts(uses: seq<Use>, errors: set<nat>, p: Pos, f: int -> bool)
    requires forall i :: 1 <= i <= |Firsts(uses)| ==> (f(i) <==> Firsts(uses)[i - 1] == p && i !in errors)
    ensures Count(f, 1, |Firsts(uses)| + 1) == if FullFetched(uses, errors, p) then 1 else 0
  {
    var d := |Firsts(uses)|;
    if FullFetched(uses, errors, p) {
      var n :| 1 <= n <= d && Firsts(uses)[n - 1] == p && n !in errors;
      FirstsAreDistinct(uses);
      forall i | 1 <= i <= d && i != n ensures !f(i) { assert Firsts(uses)[i - 1] != Firsts(uses)[n - 1]; }
      CountOnly(f, 1, d + 1, n);
    } else {
      forall i | 1 <= i <= d ensures !f(i) { }
      CountNone(f, 1, d + 1);
    }
  }

  lemma {:induction false} FetchesAtTheEnd(w: Chain, uses: seq<Use>, s: Search, p: Pos)
    requires ValidChain(w) && JobsOk(w, uses, s.jobs) && AllSettled(s.jobs) && Positive(p)
    requires forall q :: q in Firsts(uses) ==> Positive(q)
    ensures Fetches(s.jobs, s.errors, p) ==
            (if FullFetched(uses, s.errors, p) then 1 else 0) + SpenderFetches(w, uses, s, p)
  {
    var d := |Firsts(uses)|;
    var f := (i: int) => FetchedAt(s.jobs, s.errors, p, i);
    var g := (i: int) => SpenderFetchAt(w, d, s.jobs, s.errors, p, i);
    assert Fetches(s.jobs, s.errors, p) == Count(f, 1, |s.jobs|);
    CountJoins(f, 1, d + 1, |s.jobs|);
    forall i | 1 <= i <= d ensures f(i) <==> Firsts(uses)[i - 1] == p && i !in s.errors {
      FullFetchAt(w, uses, s.jobs, s.errors, p, i);
    }
    OneOfTheFirsts(uses, s.errors, p, f);
    forall i | d + 1 <= i < |s.jobs| ensures f(i) == g(i) { LaterFetchAt(w, uses, s.jobs, s.errors, p, i); }
    CountSame(f, g, d + 1, |s.jobs|);
  }

  /** A transaction of the chain has been delivered by its full fetch, and once more for each output of the address
      that it spends, unless these fetches failed. */
  lemma {:induction false} DeliveriesAtTheEnd(w: Chain, script: Id, s: Search, p: Pos)
    requires ValidChain(w) && Complete(w, script, s) && Positive(p)
    ensures Deliveries(s.answer, p) ==
            (if FullFetched(UsesOf(w, script), s.errors, p) then 1 else 0) + SpenderFetches(w, UsesOf(w, script), s, p)
  {
    UsesAreInChain(w, script);
    FinishedIsSettled(s);
    FetchesAtTheEnd(w, UsesOf(w, script), s, p);
  }

  // ---------------------------------------------------------------- which spenders are fetched

  /** A fetch of `p` as a spender is for an output of the address whose transaction was delivered in full. */
  lemma {:induction false} SpenderFetchIsForAUse(w: Chain, script: Id, s: Search, p: Pos, i: nat)
    requires ValidChain(w) && Complete(w, script, s)
             && SpenderFetchAt(w, |Firsts(UsesOf(w, script))|, s.jobs, s.errors, p, i)
    ensures var v := UseAt(s.jobs, i - 1);
            v in UsesOf(w, script) && Spender(w, v) == p && FullFetched(UsesOf(w, script), s.errors, v.pos)
  {
    var uses := UsesOf(w, script);
    UsesAreInChain(w, script);
    Kinds(w, uses, s.jobs, i);
    assert LookupOk(w, uses, s.jobs, i - 1);
    assert FullDone(uses, s.jobs, s.errors, KeyOf(s.jobs[i - 1]));
    FullDoneIff(w, script, s, KeyOf(s.jobs[i - 1]));
  }

  lemma {:induction false} SameUseSameJob(w: Chain, uses: seq<Use>, jobs: seq<Job>, errors: set<nat>, i: nat, k: nat)
    requires JobsOk(w, uses, jobs) && Traced(uses, jobs, errors)
    requires |Firsts(uses)| < i < |jobs| && !IsLookup(|Firsts(uses)|, i)
    requires |Firsts(uses)| < k < |jobs| && !IsLookup(|Firsts(uses)|, k)
    ensures UseAt(jobs, i - 1) == UseAt(jobs, k - 1) ==> i == k
  {
    var d := |Firsts(uses)|;
    assert IsLookup(d, i - 1) && IsLookup(d, k - 1);
    assert LookupOk(w, uses, jobs, i - 1) && LookupOk(w, uses, jobs, k - 1);
  }

  /** Job `i` fetches the spender of `v`. */
  predicate FetchOf(jobs: seq<Job>, d: nat, v: Use, i: int) {
    d < i < |jobs| && !IsLookup(d, i) && UseAt(jobs, i - 1) == v
  }

  lemma {:induction false} LookupHasFetch(w: Chain, uses: seq<Use>, jobs: seq<Job>, v: Use, m: nat)
    requires JobsOk(w, uses, jobs) && LooksUp(jobs, |Firsts(uses)|, v, m)
    ensures FetchOf(jobs, |Firsts(uses)|, v, m + 1)
  {
    assert LookupOk(w, uses, jobs, m);
  }

  /** No fetch of `p` as a spender succeeded exactly when, for every output that it spends, the full fetch of the
      output's transaction failed or its own fetch did. */
  lemma {:induction false} NoSpenderFetchIff(w: Chain, uses: seq<Use>, s: Search, p: Pos)
    ensures SpenderFetches(w, uses, s, p) == 0 <==>
            forall i :: !SpenderFetchAt(w, |Firsts(uses)|, s.jobs, s.errors, p, i)
  {
    var d := |Firsts(uses)|;
    var g := (i: int) => SpenderFetchAt(w, d, s.jobs, s.errors, p, i);
    if SpenderFetches(w, uses, s, p) == 0 {
      forall i ensures !SpenderFetchAt(w, d, s.jobs, s.errors, p, i) {
        if g(i) { CountSome(g, d + 1, |s.jobs|, i); }
      }
    } else if forall i :: !SpenderFetchAt(w, d, s.jobs, s.errors, p, i) {
      CountNone(g, d + 1, |s.jobs|);
    }
  }

  // ---------------------------------------------------------------- what is listed

  /** Every listed transaction carries its data. */
  ghost predicate ListedAreFull(s: Search) {
    forall j :: 0 <= j < |s.answer| && s.answer[j].pos in s.txRefs ==> s.answer[j].full.Some?
  }

  lemma {:induction false} UseOfPlace(w: Chain, script: Id, s: Search, p: Pos) returns (u: Use)
    requires Listed(w, UsesOf(w, script), s) && p in s.txRefs
    ensures u in UsesOf(w, script) && u.pos == p
  {
    var uses := UsesOf(w, script);
    TableHolds(uses);
    FirstsAreDistinct(uses);
    var k :| 0 <= k < |uses| && uses[k].pos == p;
    u := uses[k];
  }

  /** An answer carries its data exactly when it came from a full fetch; otherwise it was fetched as a spender. */
  lemma {:induction false} AnswerOrigin(w: Chain, script: Id, s: Search, j: nat)
    requires ValidChain(w) && Complete(w, script, s) && j < |s.answer|
    ensures var d := |Firsts(UsesOf(w, script))|;
            var a := s.answer[j];
            if a.jobId <= d then a.full.Some?
            else a.full.None? && SpenderFetchAt(w, d, s.jobs, s.errors, a.pos, a.jobId)
  {
    var a := s.answer[j];
    assert FromJob(w, s.jobs, s.errors, a);
    UsesAreInChain(w, script);
    Kinds(w, UsesOf(w, script), s.jobs, a.jobId);
    FinishedIsSettled(s);
    if a.jobId > |Firsts(UsesOf(w, script))| { LaterFetchAt(w, UsesOf(w, script), s.jobs, s.errors, a.pos, a.jobId); }
  }


  /** No transaction of the address was delivered as a spender. */
  ghost predicate NoneFetchedAsSpender(w: Chain, uses: seq<Use>, s: Search) {
    forall u :: u in uses ==> SpenderFetches(w, uses, s, u.pos) == 0
  }

  lemma {:induction false} ListedAreFullIff(w: Chain, script: Id, s: Search)
    requires ValidChain(w) && Complete(w, script, s)
    ensures ListedAreFull(s) <==> NoneFetchedAsSpender(w, UsesOf(w, script), s)
  {
    var uses := UsesOf(w, script);
    if ListedAreFull(s) {
      forall u | u in uses ensures SpenderFetches(w, uses, s, u.pos) == 0 { FullMeansNoSpender(w, script, s, u); }
    }
    if NoneFetchedAsSpender(w, uses, s) {
      forall j | 0 <= j < |s.answer| && s.answer[j].pos in s.txRefs ensures s.answer[j].full.Some? {
        var u := UseOfPlace(w, script, s, s.answer[j].pos);
        AnswerOrigin(w, script, s, j);
        NoSpenderFetchIff(w, uses, s, u.pos);
      }
    }
  }

  lemma {:induction false} FullMeansNoSpender(w: Chain, script: Id, s: Search, u: Use)
    requires ValidChain(w) && Complete(w, script, s) && u in UsesOf(w, script) && ListedAreFull(s)
    ensures SpenderFetches(w, UsesOf(w, script), s, u.pos) == 0
  {
    var uses := UsesOf(w, script);
    var d := |Firsts(uses)|;
    UsesAreInChain(w, script);
    TableAfterAnyRun(w, script, s, u);
    NoSpenderFetchIff(w, uses, s, u.pos);
    if i :| SpenderFetchAt(w, d, s.jobs, s.errors, u.pos, i) { SpenderAnswerLacksData(w, script, s, u.pos, i); }
  }

  lemma {:induction false} SpenderAnswerLacksData(w: Chain, script: Id, s: Search, p: Pos, i: nat)
    requires ValidChain(w) && Complete(w, script, s) && p in w.txs && p in s.txRefs
    requires SpenderFetchAt(w, |Firsts(UsesOf(w, script))|, s.jobs, s.errors, p, i)
    ensures !ListedAreFull(s)
  {
    FinishedIsSettled(s);
    LaterFetchAt(w, UsesOf(w, script), s.jobs, s.errors, p, i);
    assert FetchedAt(s.jobs, s.errors, PlaceOf(s.jobs[i]), i);
    var j :| 0 <= j < |s.answer| && s.answer[j].jobId == i;
    assert FromJob(w, s.jobs, s.errors, s.answer[j]);
    AnswerOrigin(w, script, s, j);
  }

  lemma {:induction false} RowOfAnswer(w: Chain, jobs: seq<Job>, errors: set<nat>, answer: seq<Answer>, txRefs: TxRefs,
                                       j: nat, u: Use)
    requires Matched(w, jobs, errors, answer) && j < |answer| && answer[j].pos == u.pos && Shows(false, txRefs, u)
    requires u.pos in w.txs && u.index < |w.txs[u.pos].outs|
    ensures var row := txRefs[u.pos][u.index];
            && (Deliveries(answer, row) > 0 ==> row in w.txs)
            && OutputRow(txRefs, answer, answer[j], u.index) ==
               ListedOutput(u, Some(w.txs[u.pos].id),
                            if answer[j].full.Some? then Some(w.txs[u.pos].outs[u.index]) else None, row.height,
                            if Deliveries(answer, row) > 0 then Some(w.txs[row].id) else None)
  {
    assert FromJob(w, jobs, errors, answer[j]);
    FoundIffDelivered(w, jobs, errors, answer, txRefs[u.pos][u.index]);
  }

  /** What a delivery shows of an output of the address: the value on the chain if it carries the data, the height in
      the table, and the id of the transaction there if that was delivered. */
  lemma {:induction false} ListedRow(w: Chain, script: Id, s: Search, j: nat, u: Use)
    requires ValidChain(w) && Complete(w, script, s) && j < |s.answer| && u in UsesOf(w, script)
             && s.answer[j].pos == u.pos
    ensures Shows(false, s.txRefs, u) && u.pos in w.txs && u.index < |w.txs[u.pos].outs|
    ensures var row := s.txRefs[u.pos][u.index];
            && (Deliveries(s.answer, row) > 0 ==> row in w.txs)
            && OutputRow(s.txRefs, s.answer, s.answer[j], u.index) ==
               ListedOutput(u, Some(w.txs[u.pos].id),
                            if s.answer[j].full.Some? then Some(w.txs[u.pos].outs[u.index]) else None, row.height,
                            if Deliveries(s.answer, row) > 0 then Some(w.txs[row].id) else None)
  {
    UsesAreInChain(w, script);
    TableAfterAnyRun(w, script, s, u);
    var k :| 0 <= k < |UsesOf(w, script)| && UsesOf(w, script)[k] == u;
    RowOfAnswer(w, s.jobs, s.errors, s.answer, s.txRefs, j, u);
  }

  lemma {:induction false} FoundIffDelivered(w: Chain, jobs: seq<Job>, errors: set<nat>, answer: seq<Answer>, p: Pos)
    requires Matched(w, jobs, errors, answer)
    ensures Deliveries(answer, p) > 0 ==> p in w.txs
    ensures var spender := FirstAt(answer, p);
            if Deliveries(answer, p) > 0 then spender.Some? && spender.value.txid == Some(w.txs[p].id)
            else spender.None?
  {
    FirstAtFinds(answer, p);
    if FirstAt(answer, p).Some? {
      var j :| 0 <= j < |answer| && answer[j].pos == p;
      SomeDelivery(answer, p, j);
      var k :| 0 <= k < |answer| && answer[k] == FirstAt(answer, p).value;
      assert FromJob(w, jobs, errors, answer[k]);
    } else {
      NoDelivery(answer, p);
    }
  }

  /** After every run that finishes, whatever failed in it: an output of the address is listed once for the full
      fetch of its transaction and once for each fetch of its transaction as the spender of an output, as far as
      these did not fail; its row has the true spender exactly when the full fetch did not fail; and all listed
      transactions carry their data exactly when no fetch of one of them as a spender succeeded. */
  lemma {:induction false} ListingAfterAnyRun(w: Chain, script: Id, events: seq<Event>, u: Use)
    requires ValidChain(w) && ValidRun(w, AddressRequest(AddressTxs, script), events) && u in UsesOf(w, script)
    requires Run(w, AddressRequest(AddressTxs, script), events).Ok? ==>
               SearchFinished(Run(w, AddressRequest(AddressTxs, script), events).s)
    ensures Run(w, AddressRequest(AddressTxs, script), events).Ok?
    ensures var s := Run(w, AddressRequest(AddressTxs, script), events).s;
            var uses := UsesOf(w, script);
            && TimesListed(false, s.txRefs, s.answer, u)
               == (if FullFetched(uses, s.errors, u.pos) then 1 else 0) + SpenderFetches(w, uses, s, u.pos)
            && Shows(false, s.txRefs, u)
            && s.txRefs[u.pos][u.index] ==
               (if FullFetched(uses, s.errors, u.pos) then Resolved(Spender(w, u)) else UNKNOWN)
            && (ListedAreFull(s) <==> NoneFetchedAsSpender(w, uses, s))
  {
    RunMatches(w, script, AddressRequest(AddressTxs, script), events);
    var s := Run(w, AddressRequest(AddressTxs, script), events).s;
    WaitingIsUnfinished(AddressTxs, script, s);
    ListingAtTheEnd(w, script, s, u);
  }

  lemma {:induction false} ListingAtTheEnd(w: Chain, script: Id, s: Search, u: Use)
    requires ValidChain(w) && Complete(w, script, s) && u in UsesOf(w, script)
    ensures var uses := UsesOf(w, script);
            && TimesListed(false, s.txRefs, s.answer, u)
               == (if FullFetched(uses, s.errors, u.pos) then 1 else 0) + SpenderFetches(w, uses, s, u.pos)
            && Shows(false, s.txRefs, u)
            && s.txRefs[u.pos][u.index] ==
               (if FullFetched(uses, s.errors, u.pos) then Resolved(Spender(w, u)) else UNKNOWN)
            && (ListedAreFull(s) <==> NoneFetchedAsSpender(w, uses, s))
  {
    UsesAreInChain(w, script);
    TableAfterAnyRun(w, script, s, u);
    DeliveriesAtTheEnd(w, script, s, u.pos);
    ListedAreFullIff(w, script, s);
  }

  // ---------------------------------------------------------------- without failures

  /** No transaction that spends an output of the address is the one at `p`. */
  ghost predicate SpendsNothing(w: Chain, uses: seq<Use>, p: Pos) { forall v :: v in uses ==> Spender(w, v) != p }

  /** No transaction of the address spends an output of the address. */
  ghost predicate NoneSpends(w: Chain, uses: seq<Use>) { forall u :: u in uses ==> SpendsNothing(w, uses, u.pos) }

  lemma {:induction false} FetchedAsSpenderIff(w: Chain, script: Id, s: Search, p: Pos)
    requires ValidChain(w) && Complete(w, script, s) && s.errors == {} && Positive(p)
    ensures SpenderFetches(w, UsesOf(w, script), s, p) == 0 <==> SpendsNothing(w, UsesOf(w, script), p)
  {
    var uses := UsesOf(w, script);
    var d := |Firsts(uses)|;
    NoSpenderFetchIff(w, uses, s, p);
    if !SpendsNothing(w, uses, p) {
      var v :| v in uses && Spender(w, v) == p;
      AllFullFetched(uses, s.errors, v);
      var m := LookupOf(w, script, s, v);
      LookupHasFetch(w, uses, s.jobs, v, m);
      assert SpenderFetchAt(w, d, s.jobs, s.errors, p, m + 1);
    }
    if i :| SpenderFetchAt(w, d, s.jobs, s.errors, p, i) { SpenderFetchIsForAUse(w, script, s, p, i); }
  }

  lemma {:induction false} AllFullFetched(uses: seq<Use>, errors: set<nat>, v: Use)
    requires v in uses && errors == {}
    ensures FullFetched(uses, errors, v.pos)
  {
    var j := FirstIndex(uses, v);
    var n := j + 1;
    assert 1 <= n <= |Firsts(uses)| && Firsts(uses)[n - 1] == v.pos && n !in errors;
  }

  /** After any run that finishes without failures, an output of the address is listed exactly once exactly when its
      transaction spends no output of the address; and all listed transactions carry their data exactly when that
      holds for every transaction of the address. */
  lemma {:induction false} TransactionsAreListedOnceIff(w: Chain, script: Id, events: seq<Event>, u: Use)
    requires ValidChain(w) && ValidRun(w, AddressRequest(AddressTxs, script), events) && u in UsesOf(w, script)
    requires Run(w, AddressRequest(AddressTxs, script), events).Ok? ==>
               SearchFinished(Run(w, AddressRequest(AddressTxs, script), events).s)
               && Run(w, AddressRequest(AddressTxs, script), events).s.errors == {}
    ensures Run(w, AddressRequest(AddressTxs, script), events).Ok?
    ensures var s := Run(w, AddressRequest(AddressTxs, script), events).s;
            TimesListed(false, s.txRefs, s.answer, u) == 1 <==> SpendsNothing(w, UsesOf(w, script), u.pos)
    ensures var s := Run(w, AddressRequest(AddressTxs, script), events).s;
            ListedAreFull(s) <==> NoneSpends(w, UsesOf(w, script))
  {
    RunMatches(w, script, AddressRequest(AddressTxs, script), events);
    var s := Run(w, AddressRequest(AddressTxs, script), events).s;
    WaitingIsUnfinished(AddressTxs, script, s);
    ListedOnceAtTheEndIff(w, script, s, u);
    ListedAreFullIff(w, script, s);
    AllAreFetchedAsSpendersIff(w, script, s);
  }

  lemma {:induction false} ListedOnceAtTheEndIff(w: Chain, script: Id, s: Search, u: Use)
    requires ValidChain(w) && Complete(w, script, s) && s.errors == {} && u in UsesOf(w, script)
    ensures TimesListed(false, s.txRefs, s.answer, u) == 1 <==> SpendsNothing(w, UsesOf(w, script), u.pos)
  {
    assert TimesListed(false, s.txRefs, s.answer, u) == 1 + SpenderFetches(w, UsesOf(w, script), s, u.pos) by {
      ListingAtTheEnd(w, script, s, u);
      AllFullFetched(UsesOf(w, script), s.errors, u);
    }
    UseIsFetchedAsSpenderIff(w, script, s, u);
  }

  lemma {:induction false} AllAreFetchedAsSpendersIff(w: Chain, script: Id, s: Search)
    requires ValidChain(w) && Complete(w, script, s) && s.errors == {}
    ensures NoneFetchedAsSpender(w, UsesOf(w, script), s) <==> NoneSpends(w, UsesOf(w, script))
  {
    forall v | v in UsesOf(w, script)
      ensures SpenderFetches(w, UsesOf(w, script), s, v.pos) == 0 <==> SpendsNothing(w, UsesOf(w, script), v.pos)
    {
      UseIsFetchedAsSpenderIff(w, script, s, v);
    }
  }

  lemma {:induction false} UseIsFetchedAsSpenderIff(w: Chain, script: Id, s: Search, v: Use)
    requires ValidChain(w) && Complete(w, script, s) && s.errors == {} && v in UsesOf(w, script)
    ensures SpenderFetches(w, UsesOf(w, script), s, v.pos) == 0 <==> SpendsNothing(w, UsesOf(w, script), v.pos)
  {
    UsesAreInChain(w, script);
    var k :| 0 <= k < |UsesOf(w, script)| && UsesOf(w, script)[k] == v;
    FetchedAsSpenderIff(w, script, s, v.pos);
  }
}
