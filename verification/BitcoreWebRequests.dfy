/**
 The request object itself: the callbacks as methods that update its fields in place, each tied to the step
 function it implements.  The assertions of the code are the preconditions.
 */
module BitcoreWebRequests {
  import Spec = BitcoreSearch
  import opened BitcoreSearch
  import opened Options

  /** How many outputs the tags describe. */
  function CountOutputs(tags: seq<Tag>): nat {
    if tags == [] then 0 else CountOutputs(tags[..|tags| - 1]) + if tags[|tags| - 1].OutputValue? then 1 else 0
  }

  lemma {:induction false} CountOutputsConcat(a: seq<Tag>, b: seq<Tag>)
    ensures CountOutputs(a + b) == CountOutputs(a) + CountOutputs(b)
    decreases b
  {
    if b == [] {
      assert a + b == a;
    } else {
      CountOutputsConcat(a, b[..|b| - 1]);
      assert (a + b)[..|a + b| - 1] == a + b[..|b| - 1];
    }
  }

  lemma {:induction false} CountCons(t: Tag, rest: seq<Tag>)
    ensures CountOutputs([t] + rest) == (if t.OutputValue? then 1 else 0) + CountOutputs(rest)
  {
    CountOutputsConcat([t], rest);
    assert [t][..0] == [];
  }

  lemma {:induction false} CountInTags(ins: seq<TxIn>)
    ensures CountOutputs(InTags(ins)) == 0
  {
    if ins != [] {
      var head := [PrevTxHash(ins[0].prev), PrevTxIndex(ins[0].index), TxInScript, OtherTag];
      CountInTags(ins[1..]);
      NoOutputs(head);
      CountOutputsConcat(head, InTags(ins[1..]));
    }
  }

  lemma {:induction false} NoOutputs(tags: seq<Tag>)
    requires forall i :: 0 <= i < |tags| ==> !tags[i].OutputValue?
    ensures CountOutputs(tags) == 0
  {
    if tags != [] { NoOutputs(tags[..|tags| - 1]); }
  }

  lemma {:induction false} CountOutTags(outs: seq<nat>)
    ensures CountOutputs(OutTags(outs)) == |outs|
  {
    if outs != [] {
      CountOutTags(outs[1..]);
      var t1 := [OutputScript] + OutTags(outs[1..]);
      CountCons(OutputScript, OutTags(outs[1..]));
      CountCons(OutputValue(outs[0]), t1);
      assert OutTags(outs) == [OutputValue(outs[0])] + t1;
    }
  }

  lemma {:induction false} CountTags(tx: ChainTx)
    ensures CountOutputs(Tags(tx)) == |tx.outs|
  {
    CountInTags(tx.ins);
    CountOutTags(tx.outs);
    CountOutputsConcat([OtherTag], InTags(tx.ins));
    CountOutputsConcat([OtherTag] + InTags(tx.ins), OutTags(tx.outs));
    CountOutputsConcat([OtherTag] + InTags(tx.ins) + OutTags(tx.outs), [OtherTag]);
    assert [OtherTag][..0] == [];
  }

  /** A fetch that the engine will replace by a lookup and a fetch. */
  predicate ByIdOnly(job: Job) { Startable(job) && job.kind.FetchTx? && !HasPlace(job) }

  /** How many such fetches there are from `i` on. */
  ghost function ToReplace(jobs: seq<Job>, i: nat): nat
    requires i <= |jobs|
    decreases |jobs| - i
  {
    if i == |jobs| then 0 else ToReplace(jobs, i + 1) + if ByIdOnly(jobs[i]) then 1 else 0
  }

  lemma {:induction false} ToReplaceSame(a: seq<Job>, b: seq<Job>, i: nat)
    requires i <= |a| <= |b| && (forall n :: i <= n < |a| ==> b[n] == a[n])
             && (forall n :: |a| <= n < |b| ==> !ByIdOnly(b[n]))
    ensures ToReplace(b, i) == ToReplace(a, i)
    decreases |b| - i
  {
    if i < |a| {
      ToReplaceSame(a, b, i + 1);
    } else {
      NoneToReplace(b, i);
    }
  }

  lemma {:induction false} NoneToReplace(jobs: seq<Job>, i: nat)
    requires i <= |jobs| && forall n :: i <= n < |jobs| ==> !ByIdOnly(jobs[n])
    ensures ToReplace(jobs, i) == 0
    decreases |jobs| - i
  {
    if i < |jobs| { NoneToReplace(jobs, i + 1); }
  }

  lemma {:induction false} RunSnoc(w: Chain, s: Search, events: seq<Event>, e: Event)
    requires ValidRun(w, s, events) && Run(w, s, events).Ok? && Enabled(w, Run(w, s, events).s, e)
    ensures ValidRun(w, s, events + [e]) && Run(w, s, events + [e]) == Next(w, Run(w, s, events).s, e)
    decreases events
  {
    if events == [] {
      assert events + [e] == [e] && [e][1..] == [];
      var o := Next(w, s, e);
      if o.Ok? { assert ValidRun(w, o.s, []) && Run(w, o.s, []) == Ok(o.s); }
    } else {
      assert (events + [e])[0] == events[0] && (events + [e])[1..] == events[1..] + [e];
      RunSnoc(w, Next(w, s, events[0]).s, events[1..], e);
    }
  }

  class BitcoreWebRequest {
    const answerType: Mode
    var jobs: seq<Job>
    var answer: seq<Answer>
    var txRefs: TxRefs
    var blockHeights: map<Id, int>
    var errors: set<nat>

    ghost function State(): Search
      reads this
    {
      Search(answerType, jobs, answer, txRefs, blockHeights, errors)
    }

    constructor ForCoins(txid: Id)
      ensures State() == CoinsRequest(txid)
    {
      answerType := TxForTxIdCoins;
      var job := NewJob(FetchTx).(data := Some(txid), filter := IncludeFullTransactionData);
      job := job.(nextJobId := 1);
      jobs := [job];
      jobs := jobs + [NewJob(FetchBlockHeader)];
      answer, txRefs, blockHeights, errors := [], map[], map[], {};
    }

    constructor ForAddress(mode: Mode, script: Id)
      ensures State() == AddressRequest(mode, script)
    {
      answerType := mode;
      jobs := [NewJob(LookupByAddress).(data := Some(script))];
      answer, txRefs, blockHeights, errors := [], map[], map[], {};
    }

    /** The placeholder rows, one per output. */
    method PlaceholderRows(tx: ChainTx) returns (outputs: map<nat, Pos>)
      ensures outputs == UnknownRows(|tx.outs|)
    {
      outputs := map[];
      var outIndex := 0;
      var tags := Tags(tx);
      for k := 0 to |tags|
        invariant outIndex == CountOutputs(tags[..k])
        invariant outputs == UnknownRows(outIndex)
      {
        assert tags[..k + 1][..k] == tags[..k];
        if tags[k].OutputValue? {
          outputs := outputs[outIndex := UNKNOWN];
          outIndex := outIndex + 1;
        }
      }
      assert tags[..|tags|] == tags;
      CountTags(tx);
    }

    method TransactionAdded(t: Answer)
      requires Spec.TransactionAdded(State(), t).Ok?
      modifies this`jobs, this`txRefs
      ensures State() == Spec.TransactionAdded(old(State()), t).s
    {
      if (answerType.TxForTxIdCoins? || answerType.AddressTxs?) && t.full.Some? {
        var known := t.pos in txRefs;
        if answerType.TxForTxIdCoins? {
          var outputs := PlaceholderRows(t.full.value);
          txRefs := txRefs[t.pos := outputs];
        }
        var coins := answerType.TxForTxIdCoins?;
        ghost var wanted: set<nat> := if coins || !known then {} else txRefs[t.pos].Keys;
        var tags := Tags(t.full.value);
        var outputIndex := 0;
        ghost var start := jobs;
        for k := 0 to |tags|
          invariant 0 <= outputIndex
          invariant ScanJobs(coins, t, wanted, tags[k..], jobs, outputIndex) ==
                    ScanJobs(coins, t, wanted, tags, start, 0)
          invariant txRefs == (if coins then old(txRefs)[t.pos := UnknownRows(|t.full.value.outs|)] else old(txRefs))
        {
          assert tags[k..][0] == tags[k] && tags[k..][1..] == tags[k + 1..];
          if !t.Coinbase() && tags[k].PrevTxHash? && answerType.TxForTxIdCoins? {
            var job := NewJob(LookupTxById).(data := Some(tags[k].id), nextJobId := |jobs| + 1);
            jobs := jobs + [job, NewJob(FetchTx).(filter := IncludeOutputs)];
          } else if tags[k].OutputValue? {
            if coins || (answerType.AddressTxs? && known && outputIndex in txRefs[t.pos]) {
              var job := NewJob(LookupSpentTx).(data := t.txid, intData := outputIndex, intData2 := t.pos.height,
                                                intData3 := t.pos.offset, nextJobId := |jobs| + 1);
              jobs := jobs + [job, NewJob(FetchTx).(filter := IncludeTxId)];
            }
            outputIndex := outputIndex + 1;
          }
        }
        assert tags[|tags|..] == [];
      }
    }

    method TxIdResolved(jobId: int, blockHeight: int)
      requires Spec.TxIdResolved(State(), jobId, blockHeight).Ok?
      modifies this`blockHeights
      ensures State() == Spec.TxIdResolved(old(State()), jobId, blockHeight).s
    {
      var id := jobs[jobId].data.value;
      if id !in blockHeights {
        blockHeights := blockHeights[id := blockHeight];
      }
    }

    method SpentOutputResolved(jobId: int, p: Pos)
      requires Spec.SpentOutputResolved(State(), jobId, p).Ok?
      modifies this`txRefs
      ensures State() == Spec.SpentOutputResolved(old(State()), jobId, p).s
    {
      var job := jobs[jobId];
      var first := p.height;
      if p.height == -1 {
        first := -2;
      }
      txRefs := SetRow(txRefs, Pos(job.intData2, job.intData3), job.intData, Pos(first, p.offset));
    }

    method AddressUsedInOutput(u: Use)
      requires Spec.AddressUsedInOutput(State(), u).Ok?
      modifies this`jobs, this`txRefs
      ensures State() == Spec.AddressUsedInOutput(old(State()), u).s
    {
      var txPresent := false;
      if u.pos in txRefs {
        txPresent := true;
        if u.index !in txRefs[u.pos] {
          txRefs := SetRow(txRefs, u.pos, u.index, Pos(-1, 0));
        }
      } else {
        txRefs := txRefs[u.pos := map[u.index := Pos(-1, 0)]];
      }
      var job := NewJob(FetchTx).(intData := u.pos.height, intData2 := u.pos.offset);
      if answerType.AddressTxs? && !txPresent {
        job := job.(filter := IncludeFullTransactionData);
      } else if answerType.AddressBalance? || answerType.AddressUnspentOutputs? {
        job := job.(kind := FetchUTXOUnspent, intData3 := u.index);
      } else {
        return;
      }
      jobs := jobs + [job];
    }

    method UtxoLookup(u: Use, unspent: bool)
      requires Spec.UtxoLookup(State(), u, unspent).Ok?
      modifies this`jobs, this`txRefs
      ensures State() == Spec.UtxoLookup(old(State()), u, unspent).s
    {
      if unspent {
        if u.pos in txRefs {
          txRefs := SetRow(txRefs, u.pos, u.index, Pos(-2, 0));
        }
      }
      if unspent && (answerType.AddressUnspentOutputs? || answerType.AddressBalance?) {
        var job := NewJob(FetchTx).(intData := u.pos.height, intData2 := u.pos.offset,
                                    filter := if answerType.AddressBalance? then IncludeOutputs
                                              else IncludeFullTransactionData);
        jobs := jobs + [job];
      }
    }

    /** The engine's pass over the jobs: a run of start steps after which nothing can be started. It reports the end
        when it has counted no job, neither one in flight nor one it started or rejected itself. */
    method ProcessRequests(ghost w: Chain) returns (reported: bool, ghost events: seq<Event>)
      modifies this`jobs
      ensures ValidRun(w, old(State()), events) && Run(w, old(State()), events) == Ok(State())
      ensures forall k :: 0 <= k < |events| ==> events[k].Start?
      ensures forall i :: 0 <= i < |jobs| ==> !Startable(jobs[i])
      ensures reported <==> events == [] && SearchFinished(old(State()))
    {
      events := [];
      var i := 0;
      var jobsInFlight := 0;
      while i < |jobs|
        invariant 0 <= i <= |jobs|
        invariant ValidRun(w, old(State()), events) && Run(w, old(State()), events) == Ok(State())
        invariant forall k :: 0 <= k < |events| ==> events[k].Start?
        invariant forall n :: 0 <= n < i ==> !Startable(jobs[n])
        invariant events == [] ==> jobs == old(jobs)
        invariant jobsInFlight >= 0
                  && (jobsInFlight == 0 <==> events == [] && forall n :: 0 <= n < i ==> !InFlight(jobs[n]))
        decreases 3 * ToReplace(jobs, i) + |jobs| - i
      {
        if InFlight(jobs[i]) {
          jobsInFlight := jobsInFlight + 1;
        } else if Startable(jobs[i]) {
          ghost var before := jobs;
          RunSnoc(w, old(State()), events, Start(i));
          StartOne(i);
          jobsInFlight := jobsInFlight + 1;
          events := events + [Start(i)];
          ToReplaceSame(before, jobs, i + 1);
        }
        i := i + 1;
      }
      reported := jobsInFlight == 0;
    }

    method StartOne(i: nat)
      requires i < |jobs| && Startable(jobs[i])
      modifies this`jobs
      ensures State() == StartJob(old(State()), i)
      ensures |jobs| == old(|jobs|) + (if old(ByIdOnly(jobs[i])) && !old(Invalid(jobs[i])) then 2 else 0)
      ensures forall n :: 0 <= n < old(|jobs|) && n != i ==> jobs[n] == old(jobs[n])
      ensures !Startable(jobs[i]) && forall n :: old(|jobs|) <= n < |jobs| ==> !ByIdOnly(jobs[n])
    {
      var job := jobs[i];
      if Invalid(job) {
        jobs := jobs[i := job.(started := true, finished := true)];
      } else if job.kind.FetchTx? && !HasPlace(job) {
        var lookup := NewJob(LookupTxById).(data := job.data, nextJobId := job.nextJobId, nextJobId2 := |jobs| + 1);
        var fetch := NewJob(FetchTx).(filter := job.filter);
        jobs := jobs[i := job.(started := true, finished := true)] + [lookup, fetch];
      } else {
        jobs := jobs[i := job.(started := true)];
      }
    }
  }
}
