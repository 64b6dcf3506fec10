/**
 The unspent outputs of an address (AddressUnspentOutputs): how often each is listed.
 */
module BitcoreUnspentListing {
  import opened BitcoreSearch
  import opened BitcoreAddress
  import opened BitcoreBalance
  import opened BitcoreBalanceAnswer
  import opened BitcoreCoinsAnswer
  import opened BitcoreListing
  import opened Options

  lemma {:induction false} DeliveriesAreCounted(answer: seq<Answer>, p: Pos)
    ensures Deliveries(answer, p) == multiset(AnswerPlaces(answer))[p]
  {
    if answer != [] {
      var init := answer[..|answer| - 1];
      DeliveriesAreCounted(init, p);
      assert AnswerPlaces(answer) == AnswerPlaces(init) + [answer[|answer| - 1].pos];
    }
  }

  lemma {:induction false} FinishedListing(w: Chain, uses: seq<Use>, s: Search, u: Use)
    requires ValidChain(w) && Listed(w, AddressUnspentOutputs, uses, s) && SearchFinished(s)
    requires forall k :: 0 <= k < |uses| ==> Positive(uses[k].pos)
    ensures Shows(true, s.txRefs, u) <==> u in ReportedUnspent(w, uses, s.errors)
    ensures Deliveries(s.answer, u.pos) + FailedFetches(uses, s.jobs, s.errors, u.pos)
         == multiset(UsePlaces(ReportedUnspent(w, uses, s.errors)))[u.pos]
  {
    MarkedIff(w, AddressUnspentOutputs, uses, s, u);
    DeliveriesMatchReported(w, AddressUnspentOutputs, uses, s, u.pos);
    DeliveriesAreCounted(s.answer, u.pos);
  }

  /** After every run that finishes, whatever failed in it, exactly the outputs reported unspent can be listed, and
      each is listed once per fetch of its transaction that did not fail; its transaction is fetched once per output
      of it that was reported unspent. */
  lemma {:induction false} ListingAfterAnyRun(w: Chain, script: Id, events: seq<Event>, u: Use)
    requires ValidChain(w) && ValidRun(w, AddressRequest(AddressUnspentOutputs, script), events)
    requires Run(w, AddressRequest(AddressUnspentOutputs, script), events).Ok? ==>
               SearchFinished(Run(w, AddressRequest(AddressUnspentOutputs, script), events).s)
    ensures Run(w, AddressRequest(AddressUnspentOutputs, script), events).Ok?
    ensures var s := Run(w, AddressRequest(AddressUnspentOutputs, script), events).s;
            var reported := ReportedUnspent(w, UsesOf(w, script), s.errors);
            if u in reported
            then TimesListed(true, s.txRefs, s.answer, u) + FailedFetches(UsesOf(w, script), s.jobs, s.errors, u.pos)
              == multiset(UsePlaces(reported))[u.pos]
            else TimesListed(true, s.txRefs, s.answer, u) == 0
  {
    BalanceNeverCrashes(w, AddressUnspentOutputs, script, events);
    var s := Run(w, AddressRequest(AddressUnspentOutputs, script), events).s;
    UsesArePositive(w, script);
    WaitingIsUnfinished(AddressUnspentOutputs, script, s);
    FinishedListing(w, UsesOf(w, script), s, u);
  }

  /** The row shows an output reported unspent: its transaction, its value on the chain, and that nothing spends it. */
  predicate ShowsUnspent(w: Chain, reported: seq<Use>, r: ListedOutput) {
    && r.use in reported && r.use.pos in w.txs && r.use.index < |w.txs[r.use.pos].outs|
    && r == ListedOutput(r.use, Some(w.txs[r.use.pos].id), Some(w.txs[r.use.pos].outs[r.use.index]), -2, None)
  }

  /** Nothing is delivered for the mark of an unspent output. */
  lemma {:induction false} NoSpenderOfUnspent(w: Chain, uses: seq<Use>, answer: seq<Answer>, row: Pos)
    requires ValidChain(w) && AnswersOk(w, AddressUnspentOutputs, uses, answer) && row.height < 0
    ensures FirstAt(answer, row).None?
  {
    FirstAtFinds(answer, row);
    forall j | 0 <= j < |answer| ensures answer[j].pos != row {
      assert AnswerOk(w, AddressUnspentOutputs, uses, answer[j]);
      assert Positive(answer[j].pos);
    }
  }

  lemma {:induction false} DeliveredRow(w: Chain, uses: seq<Use>, s: Search, a: Answer, r: ListedOutput)
    requires ValidChain(w) && Listed(w, AddressUnspentOutputs, uses, s) && SearchFinished(s) && a in s.answer
    requires UsesInChain(w, uses) && forall k :: 0 <= k < |uses| ==> Positive(uses[k].pos)
    requires FromDelivery(true, s.txRefs, s.answer, a, r)
    ensures ShowsUnspent(w, ReportedUnspent(w, uses, s.errors), r)
  {
    var j :| 0 <= j < |s.answer| && s.answer[j] == a;
    assert AnswerOk(w, AddressUnspentOutputs, uses, a);
    MarkedIff(w, AddressUnspentOutputs, uses, s, r.use);
    ReportedAreUses(w, uses, s.errors);
    var k :| 0 <= k < |uses| && uses[k] == r.use;
    NoSpenderOfUnspent(w, uses, s.answer, s.txRefs[r.use.pos][r.use.index]);
  }

  /** After every run that finishes, whatever failed in it, every row of the list shows an output that was reported
      unspent, with its value on the chain. */
  lemma {:induction false} RowsShowTheChain(w: Chain, script: Id, events: seq<Event>)
    requires ValidChain(w) && ValidRun(w, AddressRequest(AddressUnspentOutputs, script), events)
    requires Run(w, AddressRequest(AddressUnspentOutputs, script), events).Ok? ==>
               SearchFinished(Run(w, AddressRequest(AddressUnspentOutputs, script), events).s)
    ensures Run(w, AddressRequest(AddressUnspentOutputs, script), events).Ok?
    ensures var s := Run(w, AddressRequest(AddressUnspentOutputs, script), events).s;
            forall r :: r in Listing(true, s.txRefs, s.answer, |s.answer|) ==>
              ShowsUnspent(w, ReportedUnspent(w, UsesOf(w, script), s.errors), r)
  {
    BalanceNeverCrashes(w, AddressUnspentOutputs, script, events);
    var s := Run(w, AddressRequest(AddressUnspentOutputs, script), events).s;
    var uses := UsesOf(w, script);
    UsesArePositive(w, script);
    WaitingIsUnfinished(AddressUnspentOutputs, script, s);
    ListingComesFrom(true, s.txRefs, s.answer, |s.answer|);
    forall r | r in Listing(true, s.txRefs, s.answer, |s.answer|)
      ensures ShowsUnspent(w, ReportedUnspent(w, uses, s.errors), r)
    {
      assert FromSome(true, s.txRefs, s.answer, r);
      var a :| a in s.answer && FromDelivery(true, s.txRefs, s.answer, a, r);
      DeliveredRow(w, uses, s, a, r);
    }
  }

  /** Every output reported unspent is listed exactly once. */
  ghost predicate EachListedOnce(s: Search, reported: seq<Use>) {
    forall k :: 0 <= k < |reported| ==> TimesListed(true, s.txRefs, s.answer, reported[k]) == 1
  }

  /** The number of outputs reported unspent that share the transaction of an output, itself included, is one more
      than the number of failed fetches of the transaction. */
  ghost predicate AllButOneFailed(uses: seq<Use>, s: Search, reported: seq<Use>) {
    forall k :: 0 <= k < |reported| ==>
      multiset(UsePlaces(reported))[reported[k].pos] == FailedFetches(uses, s.jobs, s.errors, reported[k].pos) + 1
  }

  /** After every run that finishes, each output reported unspent is listed exactly once exactly when, of the fetches
      of its transaction, one per output of it that was reported unspent, all but one failed. */
  lemma {:induction false} ListedOnceIffAllButOneFailed(w: Chain, script: Id, events: seq<Event>)
    requires ValidChain(w) && ValidRun(w, AddressRequest(AddressUnspentOutputs, script), events)
    requires Run(w, AddressRequest(AddressUnspentOutputs, script), events).Ok? ==>
               SearchFinished(Run(w, AddressRequest(AddressUnspentOutputs, script), events).s)
    ensures Run(w, AddressRequest(AddressUnspentOutputs, script), events).Ok?
    ensures var s := Run(w, AddressRequest(AddressUnspentOutputs, script), events).s;
            var reported := ReportedUnspent(w, UsesOf(w, script), s.errors);
            EachListedOnce(s, reported) <==> AllButOneFailed(UsesOf(w, script), s, reported)
  {
    BalanceNeverCrashes(w, AddressUnspentOutputs, script, events);
    var s := Run(w, AddressRequest(AddressUnspentOutputs, script), events).s;
    var uses := UsesOf(w, script);
    var reported := ReportedUnspent(w, uses, s.errors);
    forall k | 0 <= k < |reported|
      ensures TimesListed(true, s.txRefs, s.answer, reported[k]) == 1 <==>
              multiset(UsePlaces(reported))[reported[k].pos] ==
              FailedFetches(uses, s.jobs, s.errors, reported[k].pos) + 1
    {
      ListingAfterAnyRun(w, script, events, reported[k]);
    }
  }

  /** After a run without failures every unspent output is listed exactly once exactly when no two share a
      transaction. */
  lemma {:induction false} ListedOnceIffNoSharedTransaction(w: Chain, script: Id, events: seq<Event>)
    requires ValidChain(w) && ValidRun(w, AddressRequest(AddressUnspentOutputs, script), events)
    requires Run(w, AddressRequest(AddressUnspentOutputs, script), events).Ok? ==>
               SearchFinished(Run(w, AddressRequest(AddressUnspentOutputs, script), events).s)
               && Run(w, AddressRequest(AddressUnspentOutputs, script), events).s.errors == {}
    ensures Run(w, AddressRequest(AddressUnspentOutputs, script), events).Ok?
    ensures var unspent := UnspentUses(w, UsesOf(w, script));
            EachListedOnce(Run(w, AddressRequest(AddressUnspentOutputs, script), events).s, unspent) <==>
            forall j, k :: 0 <= j < k < |unspent| ==> unspent[j].pos != unspent[k].pos
  {
    ListedOnceIffAllButOneFailed(w, script, events);
    var s := Run(w, AddressRequest(AddressUnspentOutputs, script), events).s;
    var uses := UsesOf(w, script);
    var unspent := UnspentUses(w, uses);
    forall p ensures FailedFetches(uses, s.jobs, s.errors, p) == 0 { NoFailedFetches(uses, s.jobs, s.errors, p); }
    PlacesDistinctIff(unspent);
  }

  lemma {:induction false} PlacesDistinctIff(unspent: seq<Use>)
    ensures (forall k :: 0 <= k < |unspent| ==> multiset(UsePlaces(unspent))[unspent[k].pos] == 1) <==>
            forall j, k :: 0 <= j < k < |unspent| ==> unspent[j].pos != unspent[k].pos
  {
    var ps := UsePlaces(unspent);
    assert forall k :: 0 <= k < |ps| ==> ps[k] == unspent[k].pos;
    if forall k :: 0 <= k < |unspent| ==> multiset(ps)[unspent[k].pos] == 1 {
      forall j, k | 0 <= j < k < |unspent| ensures unspent[j].pos != unspent[k].pos {
        OccursOnceIff(ps, k);
        assert multiset(ps)[unspent[k].pos] == 1;
        assert ps[j] != ps[k];
      }
    }
    if forall j, k :: 0 <= j < k < |unspent| ==> unspent[j].pos != unspent[k].pos {
      forall k | 0 <= k < |unspent| ensures multiset(ps)[unspent[k].pos] == 1 {
        OccursOnceIff(ps, k);
        forall j | 0 <= j < |ps| && j != k ensures ps[j] != ps[k] {
          if j < k { assert unspent[j].pos != unspent[k].pos; } else { assert unspent[k].pos != unspent[j].pos; }
        }
      }
    }
  }
}
