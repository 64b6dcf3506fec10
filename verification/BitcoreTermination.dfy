/**
 Searches end: every step uses up a flag of a job, and a search that has not finished can take a step.
 */
module BitcoreTermination {
  import opened BitcoreSearch
  import opened BitcoreCoins
  import opened BitcoreCoinsRuns
  import opened Options

  function FlagsOf(job: Job): nat { (if job.started then 1 else 0) + if job.finished then 1 else 0 }

  /** How many flags are set. */
  function Flags(jobs: seq<Job>): nat {
    if jobs == [] then 0 else Flags(jobs[..|jobs| - 1]) + FlagsOf(jobs[|jobs| - 1])
  }

  /** No flag is taken back, and one more is set at `i`. */
  ghost predicate Grows(jobs: seq<Job>, jobs': seq<Job>, i: nat) {
    && |jobs| <= |jobs'| && i < |jobs|
    && (forall n :: 0 <= n < |jobs| ==> FlagsOf(jobs[n]) <= FlagsOf(jobs'[n]))
    && FlagsOf(jobs[i]) < FlagsOf(jobs'[i])
  }

  lemma {:induction false} FlagsBounded(jobs: seq<Job>)
    ensures Flags(jobs) <= 2 * |jobs|
  {
    if jobs != [] { FlagsBounded(jobs[..|jobs| - 1]); }
  }

  lemma {:induction false} FlagsMonotone(jobs: seq<Job>, jobs': seq<Job>)
    requires |jobs| <= |jobs'| && forall n :: 0 <= n < |jobs| ==> FlagsOf(jobs[n]) <= FlagsOf(jobs'[n])
    ensures Flags(jobs) <= Flags(jobs')
    decreases |jobs'|
  {
    if jobs' != [] {
      var last := |jobs'| - 1;
      if |jobs| == |jobs'| { FlagsMonotone(jobs[..last], jobs'[..last]); } else { FlagsMonotone(jobs, jobs'[..last]); }
    }
  }

  lemma {:induction false} FlagsGrow(jobs: seq<Job>, jobs': seq<Job>, i: nat)
    requires Grows(jobs, jobs', i)
    ensures Flags(jobs) < Flags(jobs')
    decreases |jobs'|
  {
    var last := |jobs'| - 1;
    if |jobs| < |jobs'| {
      FlagsGrow(jobs, jobs'[..last], i);
    } else if i == last {
      FlagsMonotone(jobs[..last], jobs'[..last]);
    } else {
      FlagsGrow(jobs[..last], jobs'[..last], i);
    }
  }

  // ---------------------------------------------------------------- jobs are only appended

  ghost predicate Extends(jobs: seq<Job>, jobs': seq<Job>) {
    |jobs| <= |jobs'| && forall n :: 0 <= n < |jobs| ==> jobs'[n] == jobs[n]
  }

  lemma {:induction false} ScanExtends(coins: bool, t: Answer, wanted: set<nat>, tags: seq<Tag>, jobs: seq<Job>, i: nat)
    requires t.txid.Some?
    ensures Extends(jobs, ScanJobs(coins, t, wanted, tags, jobs, i))
    decreases tags
  {
    if tags != [] {
      var rest := tags[1..];
      if tags[0].PrevTxHash? && coins && !t.Coinbase() {
        ScanExtends(coins, t, wanted, rest, jobs + [LookupTx(tags[0].id, |jobs| + 1), Fetch(IncludeOutputs)], i);
      } else if tags[0].OutputValue? {
        ScanExtends(coins, t, wanted, rest,
                    if coins || i in wanted
                    then jobs + [LookupSpent(t.txid.value, i, t.pos, |jobs| + 1), Fetch(IncludeTxId)] else jobs,
                    i + 1);
      } else {
        ScanExtends(coins, t, wanted, rest, jobs, i);
      }
    }
  }

  lemma {:induction false} UsesExtend(s: Search, uses: seq<Use>)
    ensures AllUses(s, uses).Ok? ==> Extends(s.jobs, AllUses(s, uses).s.jobs)
    decreases uses
  {
    if uses != [] && AddressUsedInOutput(s, uses[0]).Ok? { UsesExtend(AddressUsedInOutput(s, uses[0]).s, uses[1..]); }
  }

  lemma {:induction false} DeliveryExtends(s: Search, t: Answer)
    ensures TransactionAdded(s, t).Ok? ==> Extends(s.jobs, TransactionAdded(s, t).s.jobs)
  {
    if t.full.Some? && t.txid.Some? {
      ScanExtends(true, t, {}, Tags(t.full.value), s.jobs, 0);
      ScanExtends(false, t, if t.pos in s.txRefs then s.txRefs[t.pos].Keys else {}, Tags(t.full.value), s.jobs, 0);
    }
  }

  // ---------------------------------------------------------------- every step uses up a flag

  lemma {:induction false} FinishGrows(s: Search, i: nat, jobs': seq<Job>)
    requires i < |s.jobs| && !s.jobs[i].finished && Extends(Finish(s, i).jobs, jobs')
    ensures Grows(s.jobs, jobs', i)
  {
    forall n | 0 <= n < |s.jobs| ensures FlagsOf(s.jobs[n]) <= FlagsOf(jobs'[n]) {
      assert jobs'[n] == Finish(s, i).jobs[n];
    }
    assert jobs'[i] == Finish(s, i).jobs[i];
  }

  lemma {:induction false} LookupGrows(w: Chain, s: Search, i: nat)
    requires i < |s.jobs| && !s.jobs[i].finished
    ensures LookupReply(w, Finish(s, i), i).Ok? ==> Grows(s.jobs, LookupReply(w, Finish(s, i), i).s.jobs, i)
  {
  }

  lemma {:induction false} ReplyGrows(w: Chain, s: Search, i: nat)
    requires Enabled(w, s, Reply(i))
    ensures Next(w, s, Reply(i)).Ok? ==> Grows(s.jobs, Next(w, s, Reply(i)).s.jobs, i)
  {
    var job, s1 := s.jobs[i], Finish(s, i);
    if Next(w, s, Reply(i)).Ok? {
      match job.kind {
        case LookupTxById => LookupGrows(w, s, i);
        case LookupSpentTx => LookupGrows(w, s, i);
        case LookupByAddress =>
          UsesExtend(s1, if job.data.Some? && job.data.value in w.uses then w.uses[job.data.value] else []);
          FinishGrows(s, i, Next(w, s, Reply(i)).s.jobs);
        case FetchTx =>
          DeliveryExtends(s1.(answer := s.answer + [FillTx(w, job, i)]), FillTx(w, job, i));
          FinishGrows(s, i, Next(w, s, Reply(i)).s.jobs);
        case FetchBlockHeader => FinishGrows(s, i, s1.jobs);
        case FetchUTXOUnspent => FinishGrows(s, i, Next(w, s, Reply(i)).s.jobs);
      }
    }
  }

  lemma {:induction false} StepGrows(w: Chain, s: Search, e: Event)
    requires Enabled(w, s, e)
    ensures Next(w, s, e).Ok? ==> Flags(s.jobs) < Flags(Next(w, s, e).s.jobs)
  {
    if Next(w, s, e).Ok? {
      if e.Reply? { ReplyGrows(w, s, e.job); }
      FlagsGrow(s.jobs, Next(w, s, e).s.jobs, e.job);
    }
  }

  /** Whatever the mode and the answers, a run has at most two events per job it has created. */
  lemma {:induction false} RunsAreBounded(w: Chain, s: Search, events: seq<Event>)
    requires ValidRun(w, s, events) && Run(w, s, events).Ok?
    ensures Flags(s.jobs) + |events| <= Flags(Run(w, s, events).s.jobs) <= 2 * |Run(w, s, events).s.jobs|
    decreases events
  {
    FlagsBounded(Run(w, s, events).s.jobs);
    if events != [] {
      StepGrows(w, s, events[0]);
      RunsAreBounded(w, Next(w, s, events[0]).s, events[1..]);
    }
  }

  /** A search can take a step exactly when a job is in flight or can be started. */
  lemma {:induction false} UnfinishedIffEnabled(w: Chain, s: Search)
    ensures SearchFinished(s) <==> forall e :: !Enabled(w, s, e)
  {
    if SearchFinished(s) {
      forall e ensures !Enabled(w, s, e) {
        if e.job < |s.jobs| { assert !InFlight(s.jobs[e.job]) && !Startable(s.jobs[e.job]); }
      }
    } else {
      var i :| 0 <= i < |s.jobs| && (InFlight(s.jobs[i]) || Startable(s.jobs[i]));
      assert Enabled(w, s, Start(i)) || Enabled(w, s, Reply(i)) || Enabled(w, s, Fail(i));
    }
  }

  /** The engine will not reject a job. */
  ghost predicate NothingToReject(s: Search) {
    forall i :: 0 <= i < |s.jobs| && Startable(s.jobs[i]) ==> !Invalid(s.jobs[i])
  }

  // ---------------------------------------------------------------- steps without failures

  lemma {:induction false} UsesKeepErrors(s: Search, uses: seq<Use>)
    ensures AllUses(s, uses).Ok? ==> AllUses(s, uses).s.errors == s.errors
    decreases uses
  {
    if uses != [] && AddressUsedInOutput(s, uses[0]).Ok? {
      UsesKeepErrors(AddressUsedInOutput(s, uses[0]).s, uses[1..]);
    }
  }

  lemma {:induction false} OnlyFailuresFail(w: Chain, s: Search, e: Event)
    requires Enabled(w, s, e) && !e.Fail? && Next(w, s, e).Ok?
    ensures Next(w, s, e).s.errors == s.errors
  {
    if e.Reply? && s.jobs[e.job].kind.LookupByAddress? {
      var job := s.jobs[e.job];
      UsesKeepErrors(Finish(s, e.job),
                     if job.data.Some? && job.data.value in w.uses then w.uses[job.data.value] else []);
    }
  }

  /** The hub has every transaction that is being fetched. */
  ghost predicate FetchesAnswerable(w: Chain, s: Search) {
    forall i :: 0 <= i < |s.jobs| && InFlight(s.jobs[i]) && s.jobs[i].kind.FetchTx? ==> PlaceOf(s.jobs[i]) in w.txs
  }

  /** An unfinished search of which all fetches can be answered can take a step other than a failure. */
  lemma {:induction false} GoodStep(w: Chain, s: Search) returns (e: Event)
    requires !SearchFinished(s) && FetchesAnswerable(w, s)
    ensures Enabled(w, s, e) && !e.Fail?
  {
    var i :| 0 <= i < |s.jobs| && (InFlight(s.jobs[i]) || Startable(s.jobs[i]));
    e := if InFlight(s.jobs[i]) then Reply(i) else Start(i);
  }

  // ---------------------------------------------------------------- the coins of a transaction

  /** A request for the coins of a transaction always ends: with m inputs to look up and n outputs no run has more than
      8 + 4 (m + n) events, and 8 if the transaction is not known. */
  lemma {:induction false} CoinsTerminate(w: Chain, id: Id, events: seq<Event>)
    requires ValidChain(w) && ValidRun(w, CoinsRequest(id), events)
    ensures |events| <= 8 + if id in w.byId then 4 * (SubjectOf(w, id).M() + SubjectOf(w, id).N()) else 0
  {
    CoinsNeverCrash(w, id, events);
    RunsAreBounded(w, CoinsRequest(id), events);
  }

  /** No job of a coins request is ever rejected. */
  lemma {:induction false} CoinsAreNotRejected(w: Chain, id: Id, events: seq<Event>)
    requires ValidChain(w) && ValidRun(w, CoinsRequest(id), events)
    ensures Run(w, CoinsRequest(id), events).Ok? && NothingToReject(Run(w, CoinsRequest(id), events).s)
  {
    CoinsNeverCrash(w, id, events);
    CoinsNotRejected(w, id, Run(w, CoinsRequest(id), events).s);
  }

  lemma {:induction false} CoinsNotRejected(w: Chain, id: Id, s: Search)
    requires CoinsInv(w, id, s)
    ensures NothingToReject(s)
  {
    if Loaded(w, id, s) {
      forall i | 0 <= i < |s.jobs| && Startable(s.jobs[i]) ensures !Invalid(s.jobs[i]) {
        LoadedIndices(w, id, s, i);
      }
    }
  }

  lemma {:induction false} CoinsFetchesAnswerable(w: Chain, id: Id, s: Search)
    requires ValidChain(w) && CoinsInv(w, id, s)
    ensures FetchesAnswerable(w, s)
  {
    if Loaded(w, id, s) {
      forall i | 0 <= i < |s.jobs| && InFlight(s.jobs[i]) && s.jobs[i].kind.FetchTx?
        ensures PlaceOf(s.jobs[i]) in w.txs
      {
        LoadedIndices(w, id, s, i);
        PlaceIsPositive(w, s.jobs[i - 1]);
      }
    } else if Looking(w, id, s) && InFlight(s.jobs[3]) {
      PlaceIsPositive(w, s.jobs[2]);
    }
  }

  /** From any state reached without failures a coins request can be brought to its end without failures. */
  lemma {:induction false} CoinsFinishFrom(w: Chain, id: Id, s: Search, bound: nat) returns (events: seq<Event>)
    requires ValidChain(w) && CoinsInv(w, id, s) && s.errors == {}
    requires bound == 8 + if id in w.byId then 4 * (SubjectOf(w, id).M() + SubjectOf(w, id).N()) else 0
    ensures ValidRun(w, s, events) && Run(w, s, events).Ok?
    ensures SearchFinished(Run(w, s, events).s) && Run(w, s, events).s.errors == {}
    decreases bound - Flags(s.jobs)
  {
    FlagsBounded(s.jobs);
    if SearchFinished(s) {
      events := [];
    } else {
      CoinsFetchesAnswerable(w, id, s);
      var e := GoodStep(w, s);
      StepKeepsCoinsInv(w, id, s, e);
      OnlyFailuresFail(w, s, e);
      StepGrows(w, s, e);
      var rest := CoinsFinishFrom(w, id, Next(w, s, e).s, bound);
      events := [e] + rest;
      assert events[1..] == rest;
    }
  }

  /** Every request for the coins of a transaction has a run that ends without failures. */
  lemma {:induction false} CoinsRequestCanFinish(w: Chain, id: Id) returns (events: seq<Event>)
    requires ValidChain(w)
    ensures ValidRun(w, CoinsRequest(id), events) && Run(w, CoinsRequest(id), events).Ok?
    ensures SearchFinished(Run(w, CoinsRequest(id), events).s) && Run(w, CoinsRequest(id), events).s.errors == {}
  {
    events := CoinsFinishFrom(w, id, CoinsRequest(id),
                              8 + if id in w.byId then 4 * (SubjectOf(w, id).M() + SubjectOf(w, id).N()) else 0);
  }
}
