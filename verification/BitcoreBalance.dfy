/**
 The balance of an address, and its unspent outputs (AddressBalance and AddressUnspentOutputs).

 Each output that pays the address is checked; for each unspent one its transaction is fetched once more. The
 answer adds up, for every fetched transaction, all of its unspent outputs.
 */
module BitcoreBalance {
  import opened BitcoreSearch
  import opened BitcoreAddress
  import opened Counting
  import opened Options

  predicate UtxoMode(mode: Mode) { mode.AddressBalance? || mode.AddressUnspentOutputs? }

  // ---------------------------------------------------------------- invariant

  predicate DoneAt(jobs: seq<Job>, errors: set<nat>, i: int) {
    0 <= i < |jobs| && jobs[i].finished && i !in errors
  }

  /** Job `i` checked an output of `p` and found it unspent. */
  predicate UnspentCheck(w: Chain, uses: seq<Use>, jobs: seq<Job>, errors: set<nat>, p: Pos, i: int) {
    1 <= i <= |uses| && DoneAt(jobs, errors, i) && uses[i - 1] in w.utxo && uses[i - 1].pos == p
  }

  predicate PlacedAt(jobs: seq<Job>, p: Pos, i: int) { 0 <= i < |jobs| && PlaceOf(jobs[i]) == p }

  predicate DeliveredAt(jobs: seq<Job>, errors: set<nat>, p: Pos, i: int) {
    DoneAt(jobs, errors, i) && PlacedAt(jobs, p, i)
  }

  predicate AnsweredAt(answer: seq<Answer>, p: Pos, j: int) { 0 <= j < |answer| && answer[j].pos == p }

  /** For transaction `p`: one fetch per output found unspent, and one delivered transaction per finished fetch. */
  ghost predicate Tally(w: Chain, uses: seq<Use>, jobs: seq<Job>, errors: set<nat>, answer: seq<Answer>, p: Pos) {
    && Count(i => PlacedAt(jobs, p, i), |uses| + 1, |jobs|) ==
       Count(i => UnspentCheck(w, uses, jobs, errors, p, i), 1, |uses| + 1)
    && Count(j => AnsweredAt(answer, p, j), 0, |answer|) ==
       Count(i => DeliveredAt(jobs, errors, p, i), |uses| + 1, |jobs|)
  }

  ghost predicate Tallies(w: Chain, uses: seq<Use>, jobs: seq<Job>, errors: set<nat>, answer: seq<Answer>) {
    forall p :: Tally(w, uses, jobs, errors, answer, p)
  }

  predicate FetchOk(w: Chain, mode: Mode, uses: seq<Use>, job: Job) {
    && job.kind.FetchTx? && job.filter == UnspentFilter(mode) && job.data.None?
    && PlaceOf(job) in w.txs && PlaceOf(job) in Table(uses) && (job.finished ==> job.started)
  }

  predicate CheckOk(job: Job, u: Use) {
    job.(started := false, finished := false) == CheckUnspent(u) && (job.finished ==> job.started)
  }

  ghost predicate JobsOk(w: Chain, mode: Mode, uses: seq<Use>, jobs: seq<Job>) {
    && |jobs| > |uses| && jobs[0].finished
    && (forall i :: 1 <= i <= |uses| ==> CheckOk(jobs[i], uses[i - 1]))
    && (forall n :: |uses| < n < |jobs| ==> FetchOk(w, mode, uses, jobs[n]))
  }

  /** Some check of the output has been answered. */
  ghost predicate Checked(uses: seq<Use>, jobs: seq<Job>, errors: set<nat>, u: Use) {
    exists i :: 1 <= i <= |uses| && uses[i - 1] == u && DoneAt(jobs, errors, i)
  }

  function RowFor(unspent: bool): Pos { if unspent then Pos(UNSPENT_HEIGHT, 0) else UNKNOWN }

  ghost predicate RowOk(w: Chain, uses: seq<Use>, jobs: seq<Job>, errors: set<nat>, txRefs: TxRefs, u: Use) {
    u.pos in txRefs && u.index in txRefs[u.pos]
    && txRefs[u.pos][u.index] == RowFor(u in w.utxo && Checked(uses, jobs, errors, u))
  }

  ghost predicate RowsOk(w: Chain, uses: seq<Use>, jobs: seq<Job>, errors: set<nat>, txRefs: TxRefs) {
    && txRefs.Keys == Table(uses).Keys
    && (forall p :: p in txRefs ==> txRefs[p].Keys == Table(uses)[p].Keys)
    && (forall u :: u in uses ==> RowOk(w, uses, jobs, errors, txRefs, u))
  }

  predicate AnswerOk(w: Chain, mode: Mode, uses: seq<Use>, a: Answer) {
    && a.pos in w.txs && a.pos in Table(uses)
    && (mode.AddressBalance? ==> a.outputs == w.txs[a.pos].outs)
    && (mode.AddressUnspentOutputs? ==> a.full == Some(w.txs[a.pos]) && a.txid == Some(w.txs[a.pos].id))
  }

  ghost predicate AnswersOk(w: Chain, mode: Mode, uses: seq<Use>, answer: seq<Answer>) {
    forall j :: 0 <= j < |answer| ==> AnswerOk(w, mode, uses, answer[j])
  }

  ghost predicate Listed(w: Chain, mode: Mode, uses: seq<Use>, s: Search) {
    && UtxoMode(mode) && s.mode == mode
    && JobsOk(w, mode, uses, s.jobs)
    && RowsOk(w, uses, s.jobs, s.errors, s.txRefs)
    && Tallies(w, uses, s.jobs, s.errors, s.answer)
    && AnswersOk(w, mode, uses, s.answer)
    && ErrorsFinished(s.jobs, s.errors)
  }

  ghost predicate BalanceInv(w: Chain, mode: Mode, script: Id, s: Search) {
    UtxoMode(mode) && (Waiting(mode, script, s) || Listed(w, mode, UsesOf(w, script), s))
  }

  // ---------------------------------------------------------------- the list of uses arrives

  lemma {:induction false} UsesArrive(w: Chain, mode: Mode, script: Id, first: Job, s: Search)
    requires ValidChain(w) && UtxoMode(mode) && first.finished
    requires s.mode == mode && s.txRefs == Table(UsesOf(w, script)) && s.answer == [] && s.errors == {}
    requires s.jobs == [first] + JobsFor(mode, UsesOf(w, script))
    ensures Listed(w, mode, UsesOf(w, script), s)
  {
    var uses := UsesOf(w, script);
    assert forall i :: 1 <= i <= |uses| ==> s.jobs[i] == CheckUnspent(uses[i - 1]);
    assert |s.jobs| == |uses| + 1;
    TableHolds(uses);
    forall u | u in uses ensures RowOk(w, uses, s.jobs, s.errors, s.txRefs, u) { assert Use(u.pos, u.index) == u; }
    forall p ensures Tally(w, uses, s.jobs, s.errors, s.answer, p) {
      CountNone(i => UnspentCheck(w, uses, s.jobs, s.errors, p, i), 1, |uses| + 1);
    }
  }

  // ---------------------------------------------------------------- parts of a step

  /** Whether a job is done, and its place, is the same for all jobs but one. */
  ghost predicate SameDone(jobs: seq<Job>, errors: set<nat>, jobs': seq<Job>, errors': set<nat>, but: int) {
    && |jobs| <= |jobs'|
    && forall i :: 0 <= i < |jobs| && i != but ==>
                   DoneAt(jobs', errors', i) == DoneAt(jobs, errors, i) && PlaceOf(jobs'[i]) == PlaceOf(jobs[i])
  }

  lemma {:induction false} SameChecked(uses: seq<Use>, jobs: seq<Job>, errors: set<nat>, jobs': seq<Job>,
                                       errors': set<nat>, but: int, u: Use)
    requires |uses| < |jobs| && SameDone(jobs, errors, jobs', errors', but)
    requires 1 <= but <= |uses| ==> uses[but - 1] != u
    ensures Checked(uses, jobs', errors', u) == Checked(uses, jobs, errors, u)
  {
    if Checked(uses, jobs', errors', u) {
      var i :| 1 <= i <= |uses| && uses[i - 1] == u && DoneAt(jobs', errors', i);
      assert DoneAt(jobs, errors, i);
    }
    if Checked(uses, jobs, errors, u) {
      var i :| 1 <= i <= |uses| && uses[i - 1] == u && DoneAt(jobs, errors, i);
      assert DoneAt(jobs', errors', i);
    }
  }

  lemma {:induction false} RowsKeptWhenSameDone(w: Chain, uses: seq<Use>, jobs: seq<Job>, errors: set<nat>,
                                                jobs': seq<Job>, errors': set<nat>, txRefs: TxRefs, but: int)
    requires |uses| < |jobs| && SameDone(jobs, errors, jobs', errors', but) && but > |uses|
    requires RowsOk(w, uses, jobs, errors, txRefs)
    ensures RowsOk(w, uses, jobs', errors', txRefs)
  {
    forall u | u in uses ensures RowOk(w, uses, jobs', errors', txRefs, u) {
      assert RowOk(w, uses, jobs, errors, txRefs, u);
      SameChecked(uses, jobs, errors, jobs', errors', but, u);
    }
  }

  lemma {:induction false} TalliesKept(w: Chain, uses: seq<Use>, jobs: seq<Job>, errors: set<nat>, jobs': seq<Job>,
                                       errors': set<nat>, answer: seq<Answer>)
    requires |uses| < |jobs| == |jobs'| && SameDone(jobs, errors, jobs', errors', |jobs|)
    requires Tallies(w, uses, jobs, errors, answer)
    ensures Tallies(w, uses, jobs', errors', answer)
  {
    forall p ensures Tally(w, uses, jobs', errors', answer, p) {
      assert Tally(w, uses, jobs, errors, answer, p);
      CountSame(i => PlacedAt(jobs, p, i), i => PlacedAt(jobs', p, i), |uses| + 1, |jobs|);
      CountSame(i => UnspentCheck(w, uses, jobs, errors, p, i), i => UnspentCheck(w, uses, jobs', errors', p, i), 1,
                |uses| + 1);
      CountSame(i => DeliveredAt(jobs, errors, p, i), i => DeliveredAt(jobs', errors', p, i), |uses| + 1, |jobs|);
    }
  }

  lemma {:induction false} JobsKept(w: Chain, mode: Mode, uses: seq<Use>, jobs: seq<Job>, i: nat, job: Job)
    requires JobsOk(w, mode, uses, jobs) && 0 < i < |jobs| && job.started
    requires job.(started := true, finished := true) == jobs[i].(started := true, finished := true)
    ensures JobsOk(w, mode, uses, jobs[i := job])
  {
    var jobs' := jobs[i := job];
    forall n | 1 <= n <= |uses| ensures CheckOk(jobs'[n], uses[n - 1]) { assert CheckOk(jobs[n], uses[n - 1]); }
    forall n | |uses| < n < |jobs'| ensures FetchOk(w, mode, uses, jobs'[n]) { assert FetchOk(w, mode, uses, jobs[n]); }
  }

  lemma {:induction false} Kinds(w: Chain, mode: Mode, uses: seq<Use>, jobs: seq<Job>, i: nat)
    requires ValidChain(w) && JobsOk(w, mode, uses, jobs) && i < |jobs|
    requires forall k :: 0 <= k < |uses| ==> Positive(uses[k].pos)
    ensures i == 0 ==> jobs[i].finished
    ensures 1 <= i <= |uses| ==> CheckOk(jobs[i], uses[i - 1]) && !Invalid(jobs[i]) && jobs[i].kind.FetchUTXOUnspent?
    ensures i > |uses| ==> FetchOk(w, mode, uses, jobs[i]) && HasPlace(jobs[i])
  {
  }

  // ---------------------------------------------------------------- steps after the list has arrived

  lemma {:induction false} ListedStarts(w: Chain, mode: Mode, uses: seq<Use>, s: Search, i: nat)
    requires ValidChain(w) && Listed(w, mode, uses, s) && Enabled(w, s, Start(i))
    requires forall k :: 0 <= k < |uses| ==> Positive(uses[k].pos)
    ensures Listed(w, mode, uses, StartJob(s, i))
  {
    Kinds(w, mode, uses, s.jobs, i);
    var jobs' := s.jobs[i := s.jobs[i].(started := true)];
    assert StartJob(s, i) == s.(jobs := jobs');
    JobsKept(w, mode, uses, s.jobs, i, jobs'[i]);
    RowsKeptWhenSameDone(w, uses, s.jobs, s.errors, jobs', s.errors, s.txRefs, |s.jobs|);
    TalliesKept(w, uses, s.jobs, s.errors, jobs', s.errors, s.answer);
  }

  lemma {:induction false} ListedFails(w: Chain, mode: Mode, uses: seq<Use>, s: Search, i: nat)
    requires ValidChain(w) && Listed(w, mode, uses, s) && Enabled(w, s, Fail(i))
    requires forall k :: 0 <= k < |uses| ==> Positive(uses[k].pos)
    ensures Listed(w, mode, uses, Next(w, s, Fail(i)).s)
  {
    Kinds(w, mode, uses, s.jobs, i);
    var jobs' := s.jobs[i := s.jobs[i].(finished := true)];
    JobsKept(w, mode, uses, s.jobs, i, jobs'[i]);
    RowsKeptWhenSameDone(w, uses, s.jobs, s.errors, jobs', s.errors + {i}, s.txRefs, |s.jobs|);
    TalliesKept(w, uses, s.jobs, s.errors, jobs', s.errors + {i}, s.answer);
  }

  lemma {:induction false} TalliesAfterFetch(w: Chain, uses: seq<Use>, jobs: seq<Job>, errors: set<nat>,
                                             answer: seq<Answer>, i: nat, a: Answer)
    requires |uses| < i < |jobs| && !jobs[i].finished && i !in errors && a.pos == PlaceOf(jobs[i])
    requires Tallies(w, uses, jobs, errors, answer)
    ensures Tallies(w, uses, jobs[i := jobs[i].(finished := true)], errors, answer + [a])
  {
    var jobs' := jobs[i := jobs[i].(finished := true)];
    var answer' := answer + [a];
    forall p ensures Tally(w, uses, jobs', errors, answer', p) {
      assert Tally(w, uses, jobs, errors, answer, p);
      CountSame(n => PlacedAt(jobs, p, n), n => PlacedAt(jobs', p, n), |uses| + 1, |jobs|);
      CountSame(n => UnspentCheck(w, uses, jobs, errors, p, n), n => UnspentCheck(w, uses, jobs', errors, p, n), 1,
                |uses| + 1);
      CountSame(j => AnsweredAt(answer, p, j), j => AnsweredAt(answer', p, j), 0, |answer|);
      if p == a.pos {
        CountOneMore(n => DeliveredAt(jobs, errors, p, n), n => DeliveredAt(jobs', errors, p, n),
                     |uses| + 1, |jobs|, i);
      } else {
        CountSame(n => DeliveredAt(jobs, errors, p, n), n => DeliveredAt(jobs', errors, p, n), |uses| + 1, |jobs|);
      }
    }
  }

  /** A transaction is delivered. */
  lemma {:induction false} ListedFetch(w: Chain, mode: Mode, uses: seq<Use>, s: Search, i: nat)
    requires ValidChain(w) && Listed(w, mode, uses, s) && Enabled(w, s, Reply(i)) && i > |uses|
    ensures Next(w, s, Reply(i)).Ok? && Listed(w, mode, uses, Next(w, s, Reply(i)).s)
  {
    assert FetchOk(w, mode, uses, s.jobs[i]);
    var a := FillTx(w, s.jobs[i], i);
    var jobs' := s.jobs[i := s.jobs[i].(finished := true)];
    var answer' := s.answer + [a];
    assert Next(w, s, Reply(i)) == Ok(s.(jobs := jobs', answer := answer'));
    JobsKept(w, mode, uses, s.jobs, i, jobs'[i]);
    RowsKeptWhenSameDone(w, uses, s.jobs, s.errors, jobs', s.errors, s.txRefs, i);
    TalliesAfterFetch(w, uses, s.jobs, s.errors, s.answer, i, a);
    assert AnswerOk(w, mode, uses, a);
  }

  /** The jobs after check `i` is answered. */
  function AfterCheck(w: Chain, mode: Mode, u: Use, jobs: seq<Job>, i: nat): seq<Job>
    requires i < |jobs|
  {
    jobs[i := jobs[i].(finished := true)] + if u in w.utxo then [FetchAt(UnspentFilter(mode), u.pos)] else []
  }

  lemma {:induction false} ChecksAfterCheck(w: Chain, mode: Mode, uses: seq<Use>, jobs: seq<Job>, errors: set<nat>,
                                            i: nat, p: Pos)
    requires 1 <= i <= |uses| < |jobs| && !jobs[i].finished && i !in errors
    ensures Count(n => UnspentCheck(w, uses, AfterCheck(w, mode, uses[i - 1], jobs, i), errors, p, n), 1, |uses| + 1)
         == Count(n => UnspentCheck(w, uses, jobs, errors, p, n), 1, |uses| + 1)
            + if p == uses[i - 1].pos && uses[i - 1] in w.utxo then 1 else 0
  {
    var u := uses[i - 1];
    var jobs' := AfterCheck(w, mode, u, jobs, i);
    if p == u.pos && u in w.utxo {
      CountOneMore(n => UnspentCheck(w, uses, jobs, errors, p, n), n => UnspentCheck(w, uses, jobs', errors, p, n), 1,
                   |uses| + 1, i);
    } else {
      CountSame(n => UnspentCheck(w, uses, jobs, errors, p, n), n => UnspentCheck(w, uses, jobs', errors, p, n), 1,
                |uses| + 1);
    }
  }

  lemma {:induction false} FetchesAfterCheck(w: Chain, mode: Mode, uses: seq<Use>, jobs: seq<Job>, errors: set<nat>,
                                             i: nat, p: Pos)
    requires 1 <= i <= |uses| < |jobs|
    ensures var jobs' := AfterCheck(w, mode, uses[i - 1], jobs, i);
            && Count(n => PlacedAt(jobs', p, n), |uses| + 1, |jobs'|)
               == Count(n => PlacedAt(jobs, p, n), |uses| + 1, |jobs|) +
               (if p == uses[i - 1].pos && uses[i - 1] in w.utxo then 1 else 0)
            && Count(n => DeliveredAt(jobs', errors, p, n), |uses| + 1, |jobs'|)
               == Count(n => DeliveredAt(jobs, errors, p, n), |uses| + 1, |jobs|)
  {
    var u := uses[i - 1];
    var jobs' := AfterCheck(w, mode, u, jobs, i);
    CountSame(n => PlacedAt(jobs, p, n), n => PlacedAt(jobs', p, n), |uses| + 1, |jobs|);
    CountSame(n => DeliveredAt(jobs, errors, p, n), n => DeliveredAt(jobs', errors, p, n), |uses| + 1, |jobs|);
    if u in w.utxo {
      assert jobs'[|jobs|] == FetchAt(UnspentFilter(mode), u.pos);
    }
  }

  lemma {:induction false} TalliesAfterCheck(w: Chain, mode: Mode, uses: seq<Use>, jobs: seq<Job>, errors: set<nat>,
                                             answer: seq<Answer>, i: nat)
    requires 1 <= i <= |uses| < |jobs| && !jobs[i].finished && i !in errors
    requires Tallies(w, uses, jobs, errors, answer)
    ensures Tallies(w, uses, AfterCheck(w, mode, uses[i - 1], jobs, i), errors, answer)
  {
    var jobs' := AfterCheck(w, mode, uses[i - 1], jobs, i);
    forall p ensures Tally(w, uses, jobs', errors, answer, p) {
      assert Tally(w, uses, jobs, errors, answer, p);
      ChecksAfterCheck(w, mode, uses, jobs, errors, i, p);
      FetchesAfterCheck(w, mode, uses, jobs, errors, i, p);
    }
  }

  lemma {:induction false} RowsAfterCheck(w: Chain, uses: seq<Use>, jobs: seq<Job>, errors: set<nat>, jobs': seq<Job>,
                                          txRefs: TxRefs, i: nat)
    requires 1 <= i <= |uses| < |jobs| && RowsOk(w, uses, jobs, errors, txRefs)
    requires DoneAt(jobs', errors, i) && SameDone(jobs, errors, jobs', errors, i)
    ensures uses[i - 1].pos in txRefs && uses[i - 1].index in txRefs[uses[i - 1].pos]
    ensures RowsOk(w, uses, jobs', errors,
                   if uses[i - 1] in w.utxo then SetRow(txRefs, uses[i - 1].pos, uses[i - 1].index, RowFor(true))
                   else txRefs)
  {
    var u := uses[i - 1];
    assert RowOk(w, uses, jobs, errors, txRefs, u);
    var refs := if u in w.utxo then SetRow(txRefs, u.pos, u.index, RowFor(true)) else txRefs;
    assert Checked(uses, jobs', errors, u);
    forall v | v in uses ensures RowOk(w, uses, jobs', errors, refs, v) {
      assert RowOk(w, uses, jobs, errors, txRefs, v);
      if v != u { SameChecked(uses, jobs, errors, jobs', errors, i, v); }
    }
  }

  lemma {:induction false} ListedCheckShape(w: Chain, s: Search, i: nat, u: Use)
    requires UtxoMode(s.mode) && i < |s.jobs| && CheckOk(s.jobs[i], u) && Enabled(w, s, Reply(i))
    requires u.pos in s.txRefs && u.index in s.txRefs[u.pos]
    ensures Next(w, s, Reply(i)) == Ok(s.(
              jobs := AfterCheck(w, s.mode, u, s.jobs, i),
              txRefs := if u in w.utxo then SetRow(s.txRefs, u.pos, u.index, RowFor(true)) else s.txRefs))
  {
    assert UseOf(s.jobs[i]) == u;
    assert s.jobs[i := s.jobs[i].(finished := true)] + [] == s.jobs[i := s.jobs[i].(finished := true)];
  }

  /** A check is answered. */
  lemma {:induction false} ListedCheck(w: Chain, mode: Mode, uses: seq<Use>, s: Search, i: nat)
    requires ValidChain(w) && Listed(w, mode, uses, s) && 1 <= i <= |uses| && Enabled(w, s, Reply(i))
             && uses[i - 1].pos in w.txs
    ensures Next(w, s, Reply(i)).Ok? && Listed(w, mode, uses, Next(w, s, Reply(i)).s)
  {
    var u := uses[i - 1];
    var done := s.jobs[i := s.jobs[i].(finished := true)];
    var jobs' := AfterCheck(w, mode, u, s.jobs, i);
    assert CheckOk(s.jobs[i], u);
    assert i !in s.errors;
    assert SameDone(s.jobs, s.errors, jobs', s.errors, i);
    RowsAfterCheck(w, uses, s.jobs, s.errors, jobs', s.txRefs, i);
    ListedCheckShape(w, s, i, u);
    TalliesAfterCheck(w, mode, uses, s.jobs, s.errors, s.answer, i);
    JobsKept(w, mode, uses, s.jobs, i, done[i]);
    JobsGrow(w, mode, uses, done, u);
  }

  lemma {:induction false} JobsGrow(w: Chain, mode: Mode, uses: seq<Use>, jobs: seq<Job>, u: Use)
    requires JobsOk(w, mode, uses, jobs) && u.pos in w.txs && u.pos in Table(uses)
    ensures JobsOk(w, mode, uses, jobs + [FetchAt(UnspentFilter(mode), u.pos)])
    ensures jobs + [] == jobs
  {
    var jobs' := jobs + [FetchAt(UnspentFilter(mode), u.pos)];
    forall n | 1 <= n <= |uses| ensures CheckOk(jobs'[n], uses[n - 1]) { assert CheckOk(jobs[n], uses[n - 1]); }
    forall n | |uses| < n < |jobs'| ensures FetchOk(w, mode, uses, jobs'[n]) {
      if n < |jobs| { assert FetchOk(w, mode, uses, jobs[n]); }
    }
  }

  // ---------------------------------------------------------------- whole runs

  lemma {:induction false} UsesArePositive(w: Chain, script: Id)
    requires ValidChain(w)
    ensures forall k :: 0 <= k < |UsesOf(w, script)| ==>
              && UsesOf(w, script)[k].pos in w.txs && Positive(UsesOf(w, script)[k].pos)
              && UsesOf(w, script)[k].index < |w.txs[UsesOf(w, script)[k].pos].outs|
  {
  }

  lemma {:induction false} ListedSteps(w: Chain, mode: Mode, uses: seq<Use>, s: Search, e: Event)
    requires ValidChain(w) && Listed(w, mode, uses, s) && Enabled(w, s, e)
    requires forall k :: 0 <= k < |uses| ==> uses[k].pos in w.txs && Positive(uses[k].pos)
    ensures Next(w, s, e).Ok? && Listed(w, mode, uses, Next(w, s, e).s)
  {
    Kinds(w, mode, uses, s.jobs, e.job);
    match e {
      case Start(i) => ListedStarts(w, mode, uses, s, i);
      case Fail(i) => ListedFails(w, mode, uses, s, i);
      case Reply(i) => if i > |uses| { ListedFetch(w, mode, uses, s, i); } else { ListedCheck(w, mode, uses, s, i); }
    }
  }

  lemma {:induction false} StepKeepsBalanceInv(w: Chain, mode: Mode, script: Id, s: Search, e: Event)
    requires ValidChain(w) && BalanceInv(w, mode, script, s) && Enabled(w, s, e)
    ensures Next(w, s, e).Ok? && BalanceInv(w, mode, script, Next(w, s, e).s)
  {
    UsesArePositive(w, script);
    if Waiting(mode, script, s) {
      WaitingSteps(w, mode, script, s, e);
      var s' := Next(w, s, e).s;
      if !Waiting(mode, script, s') { UsesArrive(w, mode, script, s.jobs[0].(finished := true), s'); }
    } else {
      ListedSteps(w, mode, UsesOf(w, script), s, e);
    }
  }

  lemma {:induction false} BalanceRunFrom(w: Chain, mode: Mode, script: Id, s: Search, events: seq<Event>)
    requires ValidChain(w) && BalanceInv(w, mode, script, s) && ValidRun(w, s, events)
    ensures Run(w, s, events).Ok? && BalanceInv(w, mode, script, Run(w, s, events).s)
    decreases events
  {
    if events != [] {
      StepKeepsBalanceInv(w, mode, script, s, events[0]);
      BalanceRunFrom(w, mode, script, Next(w, s, events[0]).s, events[1..]);
    }
  }

  /** No run of a balance or unspent-outputs request fails an assertion or dereferences a missing row. */
  lemma {:induction false} BalanceNeverCrashes(w: Chain, mode: Mode, script: Id, events: seq<Event>)
    requires ValidChain(w) && UtxoMode(mode) && ValidRun(w, AddressRequest(mode, script), events)
    ensures Run(w, AddressRequest(mode, script), events).Ok?
    ensures BalanceInv(w, mode, script, Run(w, AddressRequest(mode, script), events).s)
  {
    BalanceRunFrom(w, mode, script, AddressRequest(mode, script), events);
  }
}
