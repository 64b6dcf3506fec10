/**
 Every run of a coins request keeps the invariant of BitcoreCoins, and so never fails an assertion.
 */
module BitcoreCoinsRuns {
  import opened BitcoreSearch
  import opened BitcoreCoins
  import opened Options

  /** Only the flags of job `i` changed, or the flags and, for a waiting fetch, its place. */
  ghost predicate OthersSame(jobs: seq<Job>, jobs': seq<Job>, i: nat, j: nat) {
    |jobs| == |jobs'| && forall n :: 0 <= n < |jobs| && n != i && n != j ==> jobs'[n] == jobs[n]
  }

  lemma {:induction false} PlaceIsPositive(w: Chain, lookup: Job)
    requires ValidChain(w) && Found(w, lookup).height != -1
    ensures Found(w, lookup) in w.txs && Positive(Found(w, lookup))
  {
  }

  // ---------------------------------------------------------------- before delivery

  lemma {:induction false} FreshSteps(w: Chain, id: Id, s: Search, e: Event)
    requires Fresh(id, s) && Enabled(w, s, e)
    ensures Next(w, s, e).Ok? && Looking(w, id, Next(w, s, e).s)
  {
    assert e == Start(0);
  }

  lemma {:induction false} LookingStarts(w: Chain, id: Id, s: Search, i: nat)
    requires ValidChain(w) && Looking(w, id, s) && Enabled(w, s, Start(i))
    ensures Looking(w, id, StartJob(s, i))
  {
    if i == 3 { PlaceIsPositive(w, s.jobs[2]); }
  }

  lemma {:induction false} LookingResolves(w: Chain, id: Id, s: Search)
    requires ValidChain(w) && Looking(w, id, s) && Enabled(w, s, Reply(2))
    ensures Next(w, s, Reply(2)).Ok? && Looking(w, id, Next(w, s, Reply(2)).s)
  {
    var s1 := Finish(s, 2);
    var p := Found(w, s.jobs[2]);
    assert Found(w, s1.jobs[2]) == p;
    if p.height != -1 { PlaceIsPositive(w, s.jobs[2]); }
    assert p.height == HeightOf(w, id);
    var s' := Next(w, s, Reply(2)).s;
    assert Linked(w, s'.jobs[2], s'.jobs[3], IncludeFullTransactionData);
  }

  lemma {:induction false} LookingSteps(w: Chain, id: Id, s: Search, e: Event)
    requires ValidChain(w) && Looking(w, id, s) && Enabled(w, s, e)
    ensures Next(w, s, e).Ok? && (Looking(w, id, Next(w, s, e).s) || Loaded(w, id, Next(w, s, e).s))
  {
    match e {
      case Start(i) => LookingStarts(w, id, s, i);
      case Fail(i) => assert i == 1 || i == 3;
      case Reply(i) =>
        if i == 2 { LookingResolves(w, id, s); } else if i == 3 { DeliveryLoads(w, id, s); } else { assert i == 1; }
    }
  }

  // ---------------------------------------------------------------- after delivery

  /** A change of jobs outside the pairs' waiting fetches that keeps every lookup, every finished fetch and the head. */
  lemma {:induction false} SameLookupsKeepRows(w: Chain, sub: Subject, jobs: seq<Job>, jobs': seq<Job>, txRefs: TxRefs,
                                               heights: map<Id, int>)
    requires |jobs| == |jobs'| == 4 + 2 * (sub.M() + sub.N())
    requires forall k :: 0 <= k < sub.M() + sub.N() ==>
               jobs'[4 + 2 * k].finished == jobs[4 + 2 * k].finished
               && Found(w, jobs'[4 + 2 * k]) == Found(w, jobs[4 + 2 * k])
    requires RowsOk(w, sub, jobs, txRefs) && HeightsOk(w, sub, jobs, heights)
    ensures RowsOk(w, sub, jobs', txRefs) && HeightsOk(w, sub, jobs', heights)
  {
    forall i | 0 <= i < sub.N() ensures RowAt(w, sub, jobs', txRefs, i) {
      assert RowAt(w, sub, jobs, txRefs, i);
      var k := sub.M() + i;
      assert jobs'[4 + 2 * k].finished == jobs[4 + 2 * k].finished;
    }
  }

  lemma {:induction false} SameFetchesKeepAnswers(w: Chain, sub: Subject, jobs: seq<Job>, jobs': seq<Job>,
                                                  answer: seq<Answer>, errors: set<nat>)
    requires |jobs| == |jobs'| == 4 + 2 * (sub.M() + sub.N())
    requires forall i :: 5 <= i < |jobs| && i % 2 == 1 ==>
               jobs'[i].finished == jobs[i].finished && (jobs[i].finished ==> PlaceOf(jobs'[i]) == PlaceOf(jobs[i]))
    requires AnswersOk(w, sub, jobs, answer, errors)
    ensures AnswersOk(w, sub, jobs', answer, errors)
  {
    forall j | 1 <= j < |answer| ensures AnswerOk(w, sub, jobs', answer[j]) {
      assert AnswerOk(w, sub, jobs, answer[j]);
    }
    forall i | 5 <= i < |jobs| && i % 2 == 1 ensures FetchAnswered(jobs', answer, errors, i) {
      assert FetchAnswered(jobs, answer, errors, i);
    }
  }

  lemma {:induction false} PairsKept(w: Chain, sub: Subject, jobs: seq<Job>, jobs': seq<Job>, i: nat)
    requires JobsOk(w, sub, jobs) && |jobs'| == |jobs|
    requires i < |jobs| && OthersSame(jobs, jobs', i, i)
    requires HeadOk(w, sub.id, jobs') && jobs'[3].finished
    requires i >= 4 ==> PairOk(w, sub, jobs', (i - 4) / 2)
    ensures JobsOk(w, sub, jobs')
  {
    forall k | 0 <= k < sub.M() + sub.N() ensures PairOk(w, sub, jobs', k) {
      assert PairOk(w, sub, jobs, k);
      if i != 4 + 2 * k && i != 5 + 2 * k {
        assert jobs'[4 + 2 * k] == jobs[4 + 2 * k] && jobs'[5 + 2 * k] == jobs[5 + 2 * k];
      }
    }
  }

  /** Flags of a job that is neither a finished lookup nor a finished fetch afterwards. */
  lemma {:induction false} FlagsOnly(w: Chain, id: Id, s: Search, jobs': seq<Job>, i: nat, errors': set<nat>)
    requires Loaded(w, id, s) && i < |s.jobs| && i != 0 && i != 2 && i != 3
    requires |jobs'| == |s.jobs| && OthersSame(s.jobs, jobs', i, i)
    requires jobs'[i].(started := true, finished := true) == s.jobs[i].(started := true, finished := true)
             && jobs'[i].started
    requires i >= 4 && i % 2 == 0 ==> jobs'[i].finished == s.jobs[i].finished
    requires i >= 4 && i % 2 == 1 ==> s.jobs[i].data.Some?
    requires s.jobs[i].finished ==> jobs'[i].finished
    requires i >= 4 && i % 2 == 1 && jobs'[i].finished && !s.jobs[i].finished ==> i in errors'
    requires s.errors <= errors' <= s.errors + {i} && (i in errors' ==> jobs'[i].finished)
    requires i in errors' && i !in s.errors ==> !s.jobs[i].finished
    ensures Loaded(w, id, s.(jobs := jobs', errors := errors'))
  {
    var sub := SubjectOf(w, id);
    if i >= 4 {
      var k := (i - 4) / 2;
      assert PairOk(w, sub, s.jobs, k);
      assert i == 4 + 2 * k || i == 5 + 2 * k;
      assert PairOk(w, sub, jobs', k);
    }
    PairsKept(w, sub, s.jobs, jobs', i);
    forall k | 0 <= k < sub.M() + sub.N()
      ensures jobs'[4 + 2 * k].finished == s.jobs[4 + 2 * k].finished
              && Found(w, jobs'[4 + 2 * k]) == Found(w, s.jobs[4 + 2 * k])
    {
      assert (4 + 2 * k) % 2 == 0;
    }
    SameLookupsKeepRows(w, sub, s.jobs, jobs', s.txRefs, s.blockHeights);
    FlagsKeepAnswers(w, sub, s.jobs, jobs', i, s.answer, s.errors, errors');
  }

  lemma {:induction false} FlagsKeepAnswers(w: Chain, sub: Subject, jobs: seq<Job>, jobs': seq<Job>, i: nat,
                                            answer: seq<Answer>,
                                            errors: set<nat>, errors': set<nat>)
    requires |jobs| == |jobs'| == 4 + 2 * (sub.M() + sub.N()) && AnswersOk(w, sub, jobs, answer, errors)
    requires i < |jobs| && OthersSame(jobs, jobs', i, i) && PlaceOf(jobs'[i]) == PlaceOf(jobs[i])
    requires jobs[i].finished ==> jobs'[i].finished
    requires errors <= errors' <= errors + {i} && (i in errors' && i !in errors ==> !jobs[i].finished)
    requires i >= 4 && i % 2 == 1 && jobs'[i].finished && !jobs[i].finished ==> i in errors'
    ensures AnswersOk(w, sub, jobs', answer, errors')
  {
    forall j | 1 <= j < |answer| ensures AnswerOk(w, sub, jobs', answer[j]) && answer[j].jobId !in errors' {
      assert AnswerOk(w, sub, jobs, answer[j]) && answer[j].jobId !in errors;
    }
    forall n | 5 <= n < |jobs| && n % 2 == 1 ensures FetchAnswered(jobs', answer, errors', n) {
      assert FetchAnswered(jobs, answer, errors, n);
    }
  }

  lemma {:induction false} LoadedIndices(w: Chain, id: Id, s: Search, i: nat)
    requires Loaded(w, id, s) && i < |s.jobs|
    ensures s.jobs[0].finished && s.jobs[2].finished && s.jobs[3].finished
    ensures i == 1 ==> s.jobs[i].kind.FetchBlockHeader?
    ensures i >= 4 && i % 2 == 0 ==> i == 4 + 2 * ((i - 4) / 2) && PairOk(w, SubjectOf(w, id), s.jobs, (i - 4) / 2)
    ensures i >= 4 && i % 2 == 1 ==> i == 5 + 2 * ((i - 5) / 2) && PairOk(w, SubjectOf(w, id), s.jobs, (i - 5) / 2)
    ensures s.jobs[i].kind.FetchTx? ==> i == 0 || i == 3 || (i >= 4 && i % 2 == 1)
    ensures s.jobs[i].kind.LookupTxById? || s.jobs[i].kind.LookupSpentTx? ==> i == 2 || (i >= 4 && i % 2 == 0)
    ensures !s.jobs[i].kind.LookupByAddress? && !s.jobs[i].kind.FetchUTXOUnspent?
  {
    var sub := SubjectOf(w, id);
    if i >= 4 {
      var k := (i - 4) / 2;
      assert PairOk(w, sub, s.jobs, k);
      assert i == 4 + 2 * k || i == 5 + 2 * k;
    }
  }

  lemma {:induction false} PairStarts(w: Chain, sub: Subject, s: Search, k: nat, i: nat)
    requires ValidChain(w) && k < sub.M() + sub.N() && 5 + 2 * k < |s.jobs| && PairOk(w, sub, s.jobs, k)
    requires (i == 4 + 2 * k || i == 5 + 2 * k) && Startable(s.jobs[i])
    ensures StartJob(s, i) == s.(jobs := s.jobs[i := s.jobs[i].(started := true)])
    ensures i == 5 + 2 * k ==> s.jobs[i].data.Some?
  {
    if i == 5 + 2 * k { PlaceIsPositive(w, s.jobs[4 + 2 * k]); }
  }

  lemma {:induction false} StartSetsFlag(w: Chain, id: Id, s: Search, i: nat)
    requires ValidChain(w) && Loaded(w, id, s) && Enabled(w, s, Start(i))
    ensures StartJob(s, i) == s.(jobs := s.jobs[i := s.jobs[i].(started := true)])
    ensures i >= 4 && i % 2 == 1 ==> s.jobs[i].data.Some?
    ensures i != 0 && i != 2 && i != 3
  {
    LoadedIndices(w, id, s, i);
    if i >= 4 { PairStarts(w, SubjectOf(w, id), s, (i - 4) / 2, i); }
  }

  lemma {:induction false} LoadedStarts(w: Chain, id: Id, s: Search, i: nat)
    requires ValidChain(w) && Loaded(w, id, s) && Enabled(w, s, Start(i))
    ensures Loaded(w, id, StartJob(s, i))
  {
    StartSetsFlag(w, id, s, i);
    FlagsOnly(w, id, s, s.jobs[i := s.jobs[i].(started := true)], i, s.errors);
  }

  lemma {:induction false} LoadedFails(w: Chain, id: Id, s: Search, i: nat)
    requires ValidChain(w) && Loaded(w, id, s) && Enabled(w, s, Fail(i))
    ensures Loaded(w, id, Next(w, s, Fail(i)).s)
  {
    LoadedIndices(w, id, s, i);
    FlagsOnly(w, id, s, s.jobs[i := s.jobs[i].(finished := true)], i, s.errors + {i});
  }

  lemma {:induction false} LoadedHeader(w: Chain, id: Id, s: Search)
    requires ValidChain(w) && Loaded(w, id, s) && Enabled(w, s, Reply(1))
    ensures Next(w, s, Reply(1)).Ok? && Loaded(w, id, Next(w, s, Reply(1)).s)
  {
    LoadedIndices(w, id, s, 1);
    FlagsOnly(w, id, s, s.jobs[1 := s.jobs[1].(finished := true)], 1, s.errors);
  }

  lemma {:induction false} AnswersExtended(w: Chain, sub: Subject, jobs: seq<Job>, answer: seq<Answer>,
                                           errors: set<nat>, a: Answer, i: nat)
    requires |jobs| == 4 + 2 * (sub.M() + sub.N())
    requires AnswersOk(w, sub, jobs, answer, errors + {i}) && AnswerOk(w, sub, jobs, a) && a.jobId == i && i !in errors
    ensures AnswersOk(w, sub, jobs, answer + [a], errors)
  {
    var answer' := answer + [a];
    forall j | 1 <= j < |answer'| ensures AnswerOk(w, sub, jobs, answer'[j]) && answer'[j].jobId !in errors {
      if j < |answer| { assert answer'[j] == answer[j]; }
    }
    forall n | 5 <= n < |jobs| && n % 2 == 1 ensures FetchAnswered(jobs, answer', errors, n) {
      if n == i {
        assert answer'[|answer|].jobId == n;
      } else if jobs[n].finished && n !in errors {
        assert FetchAnswered(jobs, answer, errors + {i}, n);
        var j :| 1 <= j < |answer| && answer[j].jobId == n;
        assert answer'[j].jobId == n;
      }
    }
  }

  lemma {:induction false} FetchShape(w: Chain, sub: Subject, s: Search, k: nat)
    requires ValidChain(w) && k < sub.M() + sub.N() && |s.jobs| == 4 + 2 * (sub.M() + sub.N())
             && PairOk(w, sub, s.jobs, k)
    requires s.mode.TxForTxIdCoins? && Enabled(w, s, Reply(5 + 2 * k))
    ensures var i := 5 + 2 * k;
            var jobs' := s.jobs[i := s.jobs[i].(finished := true)];
            var a := FillTx(w, s.jobs[i], i);
            && AnswerOk(w, sub, jobs', a) && s.jobs[i].data.Some?
            && Next(w, s, Reply(i)) == Ok(s.(jobs := jobs', answer := s.answer + [a]))
  {
    PlaceIsPositive(w, s.jobs[4 + 2 * k]);
    var a := FillTx(w, s.jobs[5 + 2 * k], 5 + 2 * k);
    assert a.txid == Some(w.txs[a.pos].id);
  }

  /** Delivery of a waiting fetch: one more answer. */
  lemma {:induction false} LoadedFetches(w: Chain, id: Id, s: Search, i: nat)
    requires ValidChain(w) && Loaded(w, id, s) && Enabled(w, s, Reply(i)) && s.jobs[i].kind.FetchTx?
    ensures Next(w, s, Reply(i)).Ok? && Loaded(w, id, Next(w, s, Reply(i)).s)
  {
    var sub := SubjectOf(w, id);
    LoadedIndices(w, id, s, i);
    FetchShape(w, sub, s, (i - 5) / 2);
    var jobs' := s.jobs[i := s.jobs[i].(finished := true)];
    FlagsOnly(w, id, s, jobs', i, s.errors + {i});
    assert i !in s.errors;
    AnswersExtended(w, sub, jobs', s.answer, s.errors, FillTx(w, s.jobs[i], i), i);
  }

  // ---------------------------------------------------------------- a lookup of a pair is answered

  /** The jobs after the lookup of pair `k` is answered. */
  function AfterLookup(w: Chain, jobs: seq<Job>, k: nat): seq<Job>
    requires 5 + 2 * k < |jobs|
  {
    var job := jobs[4 + 2 * k];
    var done := jobs[4 + 2 * k := job.(finished := true)];
    var p := Found(w, job);
    if p.height == -1 then done
    else done[5 + 2 * k := done[5 + 2 * k].(intData := p.height, intData2 := p.offset, data := job.data)]
  }

  lemma {:induction false} AfterLookupOk(w: Chain, sub: Subject, jobs: seq<Job>, k: nat)
    requires ValidChain(w) && JobsOk(w, sub, jobs) && k < sub.M() + sub.N() && InFlight(jobs[4 + 2 * k])
    ensures JobsOk(w, sub, AfterLookup(w, jobs, k))
    ensures forall i :: 0 <= i < |jobs| && i != 4 + 2 * k && i != 5 + 2 * k ==> AfterLookup(w, jobs, k)[i] == jobs[i]
    ensures Found(w, AfterLookup(w, jobs, k)[4 + 2 * k]) == Found(w, jobs[4 + 2 * k])
    ensures !jobs[5 + 2 * k].finished && !AfterLookup(w, jobs, k)[5 + 2 * k].finished
  {
    var jobs' := AfterLookup(w, jobs, k);
    assert PairOk(w, sub, jobs, k);
    assert PairOk(w, sub, jobs', k);
    forall n | 0 <= n < sub.M() + sub.N() ensures PairOk(w, sub, jobs', n) {
      assert PairOk(w, sub, jobs, n);
    }
  }

  lemma {:induction false} LookupKeepsErrors(w: Chain, jobs: seq<Job>, errors: set<nat>, k: nat)
    requires 5 + 2 * k < |jobs| && ErrorsFinished(jobs, errors)
    ensures ErrorsFinished(AfterLookup(w, jobs, k), errors)
  {
  }

  lemma {:induction false} LookupReplyShape(w: Chain, sub: Subject, s: Search, k: nat)
    requires k < sub.M() + sub.N() && 5 + 2 * k < |s.jobs| && PairOk(w, sub, s.jobs, k)
    requires s.mode.TxForTxIdCoins? && Enabled(w, s, Reply(4 + 2 * k))
    ensures var job := s.jobs[4 + 2 * k];
            var s1 := s.(jobs := AfterLookup(w, s.jobs, k));
            Next(w, s, Reply(4 + 2 * k)) ==
            if k < sub.M() then TxIdResolved(s1, 4 + 2 * k, Found(w, job).height)
            else SpentOutputResolved(s1, 4 + 2 * k, Found(w, job))
  {
  }

  /** The state after the lookup of input `k` is answered. */
  ghost function AfterInputLookup(w: Chain, sub: Subject, s: Search, k: nat): Search
    requires k < sub.M() && |s.jobs| == 4 + 2 * (sub.M() + sub.N())
  {
    var prev := Inputs(sub.tx, sub.pos)[k].prev;
    s.(jobs := AfterLookup(w, s.jobs, k),
       blockHeights := if prev in s.blockHeights then s.blockHeights else s.blockHeights[prev := HeightOf(w, prev)])
  }

  lemma {:induction false} InputLookupReply(w: Chain, sub: Subject, s: Search, k: nat)
    requires ValidChain(w) && JobsOk(w, sub, s.jobs) && k < sub.M()
    requires s.mode.TxForTxIdCoins? && Enabled(w, s, Reply(4 + 2 * k))
    ensures Next(w, s, Reply(4 + 2 * k)) == Ok(AfterInputLookup(w, sub, s, k))
  {
    assert PairOk(w, sub, s.jobs, k);
    LookupReplyShape(w, sub, s, k);
  }

  /** The parts of the invariant after the lookup of an input. */
  lemma {:induction false} InputLookupKeeps(w: Chain, sub: Subject, s: Search, k: nat, s': Search)
    requires ValidChain(w) && JobsOk(w, sub, s.jobs) && RowsOk(w, sub, s.jobs, s.txRefs)
    requires AnswersOk(w, sub, s.jobs, s.answer, s.errors) && HeightsOk(w, sub, s.jobs, s.blockHeights)
    requires ErrorsFinished(s.jobs, s.errors) && k < sub.M() && InFlight(s.jobs[4 + 2 * k])
    requires s' == AfterInputLookup(w, sub, s, k)
    ensures JobsOk(w, sub, s'.jobs) && RowsOk(w, sub, s'.jobs, s'.txRefs) && ErrorsFinished(s'.jobs, s'.errors)
    ensures AnswersOk(w, sub, s'.jobs, s'.answer, s'.errors) && HeightsOk(w, sub, s'.jobs, s'.blockHeights)
    ensures s'.mode == s.mode && s'.errors == s.errors
  {
    AfterLookupOk(w, sub, s.jobs, k);
    LookupKeepsErrors(w, s.jobs, s.errors, k);
    InputLookupKeepsRest(w, sub, s.jobs, s'.jobs, k, s.txRefs, s.blockHeights, Inputs(sub.tx, sub.pos)[k].prev);
    LookupKeepsAnswers(w, sub, s.jobs, s'.jobs, k, s.answer, s.errors);
  }

  lemma {:induction false} LoadedInputLookup(w: Chain, id: Id, sub: Subject, s: Search, k: nat)
    requires ValidChain(w) && Loaded(w, id, s) && sub == SubjectOf(w, id) && k < sub.M()
    requires Enabled(w, s, Reply(4 + 2 * k))
    ensures Next(w, s, Reply(4 + 2 * k)).Ok? && Loaded(w, id, Next(w, s, Reply(4 + 2 * k)).s)
  {
    var s' := AfterInputLookup(w, sub, s, k);
    InputLookupKeeps(w, sub, s, k, s');
    InputLookupReply(w, sub, s, k);
    assert Next(w, s, Reply(4 + 2 * k)).s == s';
  }

  lemma {:induction false} InputLookupKeepsRest(w: Chain, sub: Subject, jobs: seq<Job>, jobs': seq<Job>, k: nat,
                                                txRefs: TxRefs, heights: map<Id, int>, prev: Id)
    requires |jobs'| == |jobs| == 4 + 2 * (sub.M() + sub.N()) && k < sub.M() && prev == Inputs(sub.tx, sub.pos)[k].prev
    requires OthersSame(jobs, jobs', 4 + 2 * k, 5 + 2 * k)
    requires RowsOk(w, sub, jobs, txRefs) && HeightsOk(w, sub, jobs, heights)
    ensures RowsOk(w, sub, jobs', txRefs)
    ensures HeightsOk(w, sub, jobs', if prev in heights then heights else heights[prev := HeightOf(w, prev)])
  {
    forall i | 0 <= i < sub.N() ensures RowAt(w, sub, jobs', txRefs, i) {
      assert RowAt(w, sub, jobs, txRefs, i);
      assert jobs'[4 + 2 * (sub.M() + i)] == jobs[4 + 2 * (sub.M() + i)];
    }
    forall n | 0 <= n < sub.M() && jobs'[4 + 2 * n].finished
      ensures Inputs(sub.tx, sub.pos)[n].prev in heights || Inputs(sub.tx, sub.pos)[n].prev == prev
    {
      if n != k { assert jobs'[4 + 2 * n] == jobs[4 + 2 * n]; }
    }
  }

  /** The answer to a spent-lookup always finds its row. */
  lemma {:induction false} SpentLookupNamesRow(w: Chain, sub: Subject, jobs: seq<Job>, txRefs: TxRefs, i: nat)
    requires ValidChain(w) && sub.pos in w.txs && JobsOk(w, sub, jobs) && RowsOk(w, sub, jobs, txRefs) && i < sub.N()
    ensures NamesRow(txRefs, jobs[4 + 2 * (sub.M() + i)])
    ensures Pos(jobs[4 + 2 * (sub.M() + i)].intData2, jobs[4 + 2 * (sub.M() + i)].intData3) == sub.pos
    ensures jobs[4 + 2 * (sub.M() + i)].intData == i
  {
    assert PairOk(w, sub, jobs, sub.M() + i);
  }

  lemma {:induction false} OtherRow(sub: Subject, jobs: seq<Job>, jobs': seq<Job>, i: nat, n: nat)
    requires |jobs| == 4 + 2 * (sub.M() + sub.N()) && i < sub.N() && n < sub.N() && n != i
    requires OthersSame(jobs, jobs', 4 + 2 * (sub.M() + i), 5 + 2 * (sub.M() + i))
    ensures jobs'[4 + 2 * (sub.M() + n)] == jobs[4 + 2 * (sub.M() + n)]
  {
    var m := 4 + 2 * (sub.M() + n);
    assert jobs'[m] == jobs[m];
  }

  lemma {:induction false} RowSet(w: Chain, sub: Subject, jobs: seq<Job>, jobs': seq<Job>, txRefs: TxRefs, i: nat)
    requires RowsPlain(w, sub, jobs, txRefs) && |jobs'| == |jobs| && i < sub.N()
    requires OthersSame(jobs, jobs', 4 + 2 * (sub.M() + i), 5 + 2 * (sub.M() + i))
    ensures RowsOk(w, sub, jobs', SetRow(txRefs, sub.pos, i, RowOf(w, jobs'[4 + 2 * (sub.M() + i)])))
  {
    var row := RowOf(w, jobs'[4 + 2 * (sub.M() + i)]);
    var refs := SetRow(txRefs, sub.pos, i, row);
    assert refs.Keys == {sub.pos} && refs[sub.pos] == txRefs[sub.pos][i := row];
    forall n | 0 <= n < sub.N() ensures RowAt(w, sub, jobs', refs, n) {
      assert RowAt(w, sub, jobs, txRefs, n);
      if n != i { OtherRow(sub, jobs, jobs', i, n); }
    }
  }

  ghost predicate RowsPlain(w: Chain, sub: Subject, jobs: seq<Job>, txRefs: TxRefs) {
    |jobs| == 4 + 2 * (sub.M() + sub.N()) && RowsOk(w, sub, jobs, txRefs)
  }

  /** The state after the spent-lookup of output `i` is answered. */
  ghost function AfterSpentLookup(w: Chain, sub: Subject, s: Search, i: nat): Search
    requires i < sub.N() && |s.jobs| == 4 + 2 * (sub.M() + sub.N()) && sub.pos in s.txRefs
  {
    var jobs' := AfterLookup(w, s.jobs, sub.M() + i);
    s.(jobs := jobs', txRefs := SetRow(s.txRefs, sub.pos, i, RowOf(w, jobs'[4 + 2 * (sub.M() + i)])))
  }

  lemma {:induction false} SpentLookupReply(w: Chain, sub: Subject, s: Search, i: nat, n: nat)
    requires ValidChain(w) && sub.pos in w.txs && JobsOk(w, sub, s.jobs) && RowsOk(w, sub, s.jobs, s.txRefs)
    requires s.mode.TxForTxIdCoins? && i < sub.N() && n == 4 + 2 * (sub.M() + i) && Enabled(w, s, Reply(n))
    ensures Next(w, s, Reply(n)) == Ok(AfterSpentLookup(w, sub, s, i))
  {
    assert PairOk(w, sub, s.jobs, sub.M() + i);
    SpentLookupNamesRow(w, sub, s.jobs, s.txRefs, i);
    SpentReplyShape(w, sub, s, i);
  }

  /** The parts of the invariant after a spent-lookup. */
  lemma {:induction false} SpentLookupKeeps(w: Chain, sub: Subject, s: Search, i: nat, s': Search)
    requires ValidChain(w) && JobsOk(w, sub, s.jobs) && RowsOk(w, sub, s.jobs, s.txRefs)
    requires AnswersOk(w, sub, s.jobs, s.answer, s.errors) && HeightsOk(w, sub, s.jobs, s.blockHeights)
    requires ErrorsFinished(s.jobs, s.errors) && i < sub.N() && InFlight(s.jobs[4 + 2 * (sub.M() + i)])
    requires s' == AfterSpentLookup(w, sub, s, i)
    ensures JobsOk(w, sub, s'.jobs) && RowsOk(w, sub, s'.jobs, s'.txRefs) && ErrorsFinished(s'.jobs, s'.errors)
    ensures AnswersOk(w, sub, s'.jobs, s'.answer, s'.errors) && HeightsOk(w, sub, s'.jobs, s'.blockHeights)
    ensures s'.mode == s.mode && s'.errors == s.errors
  {
    LookupKeepsErrors(w, s.jobs, s.errors, sub.M() + i);
    SpentLookupParts(w, sub, s, i);
  }

  lemma {:induction false} LoadedSpentLookup(w: Chain, id: Id, sub: Subject, s: Search, i: nat, n: nat)
    requires ValidChain(w) && Loaded(w, id, s) && sub == SubjectOf(w, id) && i < sub.N()
    requires n == 4 + 2 * (sub.M() + i) && Enabled(w, s, Reply(n))
    ensures Next(w, s, Reply(n)).Ok? && Loaded(w, id, Next(w, s, Reply(n)).s)
  {
    var s' := AfterSpentLookup(w, sub, s, i);
    SpentLookupKeeps(w, sub, s, i, s');
    SpentLookupReply(w, sub, s, i, n);
    assert Next(w, s, Reply(n)).s == s';
  }

  /** Lookups of outputs leave the heights of the inputs alone. */
  lemma {:induction false} OutputLookupKeepsHeights(w: Chain, sub: Subject, jobs: seq<Job>, jobs': seq<Job>, k: nat,
                                                    heights: map<Id, int>)
    requires |jobs| == |jobs'| == 4 + 2 * (sub.M() + sub.N()) && sub.M() <= k
    requires OthersSame(jobs, jobs', 4 + 2 * k, 5 + 2 * k) && HeightsOk(w, sub, jobs, heights)
    ensures HeightsOk(w, sub, jobs', heights)
  {
    forall n | 0 <= n < sub.M() && jobs'[4 + 2 * n].finished ensures Inputs(sub.tx, sub.pos)[n].prev in heights {
      assert jobs'[4 + 2 * n] == jobs[4 + 2 * n];
    }
  }

  /** A lookup delivers nothing. */
  lemma {:induction false} LookupKeepsAnswers(w: Chain, sub: Subject, jobs: seq<Job>, jobs': seq<Job>, k: nat,
                                              answer: seq<Answer>, errors: set<nat>)
    requires |jobs| == |jobs'| == 4 + 2 * (sub.M() + sub.N()) && k < sub.M() + sub.N()
    requires OthersSame(jobs, jobs', 4 + 2 * k, 5 + 2 * k) && !jobs[5 + 2 * k].finished && !jobs'[5 + 2 * k].finished
    requires AnswersOk(w, sub, jobs, answer, errors)
    ensures AnswersOk(w, sub, jobs', answer, errors)
  {
    SameFetchesKeepAnswers(w, sub, jobs, jobs', answer, errors);
  }

  lemma {:induction false} SpentLookupParts(w: Chain, sub: Subject, s: Search, i: nat)
    requires ValidChain(w) && JobsOk(w, sub, s.jobs) && RowsOk(w, sub, s.jobs, s.txRefs)
    requires AnswersOk(w, sub, s.jobs, s.answer, s.errors) && HeightsOk(w, sub, s.jobs, s.blockHeights)
    requires i < sub.N() && InFlight(s.jobs[4 + 2 * (sub.M() + i)])
    ensures var jobs' := AfterLookup(w, s.jobs, sub.M() + i);
            && JobsOk(w, sub, jobs')
            && RowsOk(w, sub, jobs', SetRow(s.txRefs, sub.pos, i, RowOf(w, jobs'[4 + 2 * (sub.M() + i)])))
            && AnswersOk(w, sub, jobs', s.answer, s.errors) && HeightsOk(w, sub, jobs', s.blockHeights)
  {
    var k := sub.M() + i;
    var jobs' := AfterLookup(w, s.jobs, k);
    AfterLookupOk(w, sub, s.jobs, k);
    RowSet(w, sub, s.jobs, jobs', s.txRefs, i);
    OutputLookupKeepsHeights(w, sub, s.jobs, jobs', k, s.blockHeights);
    LookupKeepsAnswers(w, sub, s.jobs, jobs', k, s.answer, s.errors);
  }

  lemma {:induction false} SpentReplyShape(w: Chain, sub: Subject, s: Search, i: nat)
    requires i < sub.N() && 5 + 2 * (sub.M() + i) < |s.jobs| && PairOk(w, sub, s.jobs, sub.M() + i)
    requires s.mode.TxForTxIdCoins? && Enabled(w, s, Reply(4 + 2 * (sub.M() + i)))
    requires var job := s.jobs[4 + 2 * (sub.M() + i)];
             NamesRow(s.txRefs, job) && Pos(job.intData2, job.intData3) == sub.pos && job.intData == i
    ensures var k := sub.M() + i;
            var jobs' := AfterLookup(w, s.jobs, k);
            Next(w, s, Reply(4 + 2 * k)) ==
            Ok(s.(jobs := jobs', txRefs := SetRow(s.txRefs, sub.pos, i, RowOf(w, jobs'[4 + 2 * k]))))
  {
    var k := sub.M() + i;
    LookupReplyShape(w, sub, s, k);
    var jobs' := AfterLookup(w, s.jobs, k);
    assert jobs'[4 + 2 * k] == s.jobs[4 + 2 * k].(finished := true);
  }

  lemma {:induction false} LoadedLookup(w: Chain, id: Id, s: Search, k: nat)
    requires ValidChain(w) && Loaded(w, id, s) && k < SubjectOf(w, id).M() + SubjectOf(w, id).N()
    requires Enabled(w, s, Reply(4 + 2 * k))
    ensures Next(w, s, Reply(4 + 2 * k)).Ok? && Loaded(w, id, Next(w, s, Reply(4 + 2 * k)).s)
  {
    var sub := SubjectOf(w, id);
    if k < sub.M() {
      LoadedInputLookup(w, id, sub, s, k);
    } else {
      LoadedSpentLookup(w, id, sub, s, k - sub.M(), 4 + 2 * k);
    }
  }

  lemma {:induction false} LoadedReplies(w: Chain, id: Id, s: Search, i: nat)
    requires ValidChain(w) && Loaded(w, id, s) && Enabled(w, s, Reply(i))
    ensures Next(w, s, Reply(i)).Ok? && Loaded(w, id, Next(w, s, Reply(i)).s)
  {
    LoadedIndices(w, id, s, i);
    if i == 1 {
      LoadedHeader(w, id, s);
    } else if s.jobs[i].kind.FetchTx? {
      LoadedFetches(w, id, s, i);
    } else {
      LoadedLookup(w, id, s, (i - 4) / 2);
    }
  }

  lemma {:induction false} LoadedSteps(w: Chain, id: Id, s: Search, e: Event)
    requires ValidChain(w) && Loaded(w, id, s) && Enabled(w, s, e)
    ensures Next(w, s, e).Ok? && Loaded(w, id, Next(w, s, e).s)
  {
    match e {
      case Start(i) => LoadedStarts(w, id, s, i);
      case Fail(i) => LoadedFails(w, id, s, i);
      case Reply(i) => LoadedReplies(w, id, s, i);
    }
  }

  // ---------------------------------------------------------------- whole runs

  lemma {:induction false} StepKeepsCoinsInv(w: Chain, id: Id, s: Search, e: Event)
    requires ValidChain(w) && CoinsInv(w, id, s) && Enabled(w, s, e)
    ensures Next(w, s, e).Ok? && CoinsInv(w, id, Next(w, s, e).s)
  {
    if Fresh(id, s) {
      FreshSteps(w, id, s, e);
    } else if Looking(w, id, s) {
      LookingSteps(w, id, s, e);
    } else {
      LoadedSteps(w, id, s, e);
    }
  }

  lemma {:induction false} CoinsRunFrom(w: Chain, id: Id, s: Search, events: seq<Event>)
    requires ValidChain(w) && CoinsInv(w, id, s) && ValidRun(w, s, events)
    ensures Run(w, s, events).Ok? && CoinsInv(w, id, Run(w, s, events).s)
    decreases events
  {
    if events != [] {
      StepKeepsCoinsInv(w, id, s, events[0]);
      CoinsRunFrom(w, id, Next(w, s, events[0]).s, events[1..]);
    }
  }

  /** No run of a coins request fails an assertion, and every reachable job list has the described shape: each lookup
      names the fetch pushed right after it, and each spent-lookup names an existing row. */
  lemma {:induction false} CoinsNeverCrash(w: Chain, id: Id, events: seq<Event>)
    requires ValidChain(w) && ValidRun(w, CoinsRequest(id), events)
    ensures Run(w, CoinsRequest(id), events).Ok? && CoinsInv(w, id, Run(w, CoinsRequest(id), events).s)
  {
    CoinsRunFrom(w, id, CoinsRequest(id), events);
  }
}
