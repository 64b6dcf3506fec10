/**
 Requests about an address end, and after how many steps.
 */
module BitcoreAddressTermination {
  import opened BitcoreSearch
  import opened BitcoreAddress
  import opened BitcoreTermination
  import opened Counting
  import opened Options
  import Balance = BitcoreBalance
  import Txs = BitcoreAddressTxs
  import Listing = BitcoreTxsListing
  import Sums = BitcoreBalanceAnswer

  // ---------------------------------------------------------------- balance and unspent outputs

  function FetchPlaces(jobs: seq<Job>, lo: nat, hi: nat): seq<Pos>
    requires lo <= hi <= |jobs|
  {
    if lo == hi then [] else FetchPlaces(jobs, lo, hi - 1) + [PlaceOf(jobs[hi - 1])]
  }

  lemma {:induction false} FetchPlacesLength(jobs: seq<Job>, lo: nat, hi: nat)
    requires lo <= hi <= |jobs|
    ensures |FetchPlaces(jobs, lo, hi)| == hi - lo
  {
    if lo < hi { FetchPlacesLength(jobs, lo, hi - 1); }
  }

  lemma {:induction false} CountOneLonger(a: seq<Pos>, x: Pos, p: Pos)
    ensures multiset(a + [x])[p] == multiset(a)[p] + if x == p then 1 else 0
  {
  }

  lemma {:induction false} FetchPlacesCount(jobs: seq<Job>, p: Pos, lo: nat, hi: nat)
    requires lo <= hi <= |jobs|
    ensures multiset(FetchPlaces(jobs, lo, hi))[p] == Count(i => Balance.PlacedAt(jobs, p, i), lo, hi)
  {
    if lo < hi {
      var f := (i: int) => Balance.PlacedAt(jobs, p, i);
      FetchPlacesCount(jobs, p, lo, hi - 1);
      assert Count(f, lo, hi) == Count(f, lo, hi - 1) + if PlaceOf(jobs[hi - 1]) == p then 1 else 0;
      CountOneLonger(FetchPlaces(jobs, lo, hi - 1), PlaceOf(jobs[hi - 1]), p);
    }
  }

  /** The places of the first `n` uses that were found unspent. */
  ghost function FoundPlaces(w: Chain, uses: seq<Use>, jobs: seq<Job>, errors: set<nat>, n: nat): seq<Pos>
    requires n <= |uses|
  {
    if n == 0 then []
    else
      FoundPlaces(w, uses, jobs, errors, n - 1)
      + if Balance.UnspentCheck(w, uses, jobs, errors, uses[n - 1].pos, n) then [uses[n - 1].pos] else []
  }

  lemma {:induction false} FoundPlacesLength(w: Chain, uses: seq<Use>, jobs: seq<Job>, errors: set<nat>, n: nat)
    requires n <= |uses|
    ensures |FoundPlaces(w, uses, jobs, errors, n)| <= n
  {
    if n > 0 { FoundPlacesLength(w, uses, jobs, errors, n - 1); }
  }

  lemma {:induction false} FoundPlacesCount(w: Chain, uses: seq<Use>, jobs: seq<Job>, errors: set<nat>, p: Pos, n: nat)
    requires n <= |uses|
    ensures multiset(FoundPlaces(w, uses, jobs, errors, n))[p] ==
            Count(i => Balance.UnspentCheck(w, uses, jobs, errors, p, i), 1, n + 1)
  {
    if n > 0 {
      FoundPlacesCount(w, uses, jobs, errors, p, n - 1);
      var before := FoundPlaces(w, uses, jobs, errors, n - 1);
      if Balance.UnspentCheck(w, uses, jobs, errors, uses[n - 1].pos, n) {
        CountOneLonger(before, uses[n - 1].pos, p);
      } else {
        assert FoundPlaces(w, uses, jobs, errors, n) == before;
      }
    }
  }

  lemma {:induction false} SamePlaces(w: Chain, uses: seq<Use>, jobs: seq<Job>, errors: set<nat>, answer: seq<Answer>)
    requires Balance.Tallies(w, uses, jobs, errors, answer) && |uses| < |jobs|
    ensures multiset(FetchPlaces(jobs, |uses| + 1, |jobs|)) == multiset(FoundPlaces(w, uses, jobs, errors, |uses|))
  {
    var a, b := FetchPlaces(jobs, |uses| + 1, |jobs|), FoundPlaces(w, uses, jobs, errors, |uses|);
    forall p ensures multiset(a)[p] == multiset(b)[p] {
      assert Balance.Tally(w, uses, jobs, errors, answer, p);
      FetchPlacesCount(jobs, p, |uses| + 1, |jobs|);
      FoundPlacesCount(w, uses, jobs, errors, p, |uses|);
    }
  }

  /** There is at most one fetch per use. */
  lemma {:induction false} FetchesAreBounded(w: Chain, mode: Mode, uses: seq<Use>, s: Search)
    requires Balance.Listed(w, mode, uses, s)
    ensures |s.jobs| <= 1 + 2 * |uses|
  {
    var a, b := FetchPlaces(s.jobs, |uses| + 1, |s.jobs|), FoundPlaces(w, uses, s.jobs, s.errors, |uses|);
    SamePlaces(w, uses, s.jobs, s.errors, s.answer);
    assert |a| == |multiset(a)| && |b| == |multiset(b)|;
    FetchPlacesLength(s.jobs, |uses| + 1, |s.jobs|);
    FoundPlacesLength(w, uses, s.jobs, s.errors, |uses|);
  }

  // ---------------------------------------------------------------- transactions

  lemma {:induction false} FirstsAreBounded(uses: seq<Use>)
    ensures |Firsts(uses)| <= |uses|
  {
    if uses != [] { FirstsAreBounded(uses[..|uses| - 1]); }
  }

  /** Distinct elements of a list are no more than the list has. */
  lemma {:induction false} DistinctWithin(some: seq<Use>, all: seq<Use>)
    requires forall j, k :: 0 <= j < k < |some| ==> some[j] != some[k]
    requires forall k :: 0 <= k < |some| ==> some[k] in all
    ensures |some| <= |all|
  {
    if some != [] {
      var init, x := some[..|some| - 1], some[|some| - 1];
      var k :| 0 <= k < |all| && all[k] == x;
      var rest := all[..k] + all[k + 1..];
      forall j | 0 <= j < |init| ensures init[j] in rest {
        assert init[j] == some[j] && some[j] in all;
        var n :| 0 <= n < |all| && all[n] == some[j];
        assert rest[if n < k then n else n - 1] == some[j];
      }
      DistinctWithin(init, rest);
    }
  }

  /** The outputs that are looked up, one per pair. */
  function LookedUpUses(jobs: seq<Job>, d: nat, n: nat): seq<Use> {
    seq(n, k requires 0 <= k < n => Listing.UseAt(jobs, d + 1 + 2 * k))
  }

  lemma {:induction false} LookedUpIsUse(w: Chain, uses: seq<Use>, jobs: seq<Job>, k: nat)
    requires Txs.JobsOk(w, uses, jobs) && |Firsts(uses)| + 1 + 2 * k < |jobs|
    ensures Listing.UseAt(jobs, |Firsts(uses)| + 1 + 2 * k) in uses
    ensures |Firsts(uses)| + 2 + 2 * k < |jobs| && !Txs.IsLookup(|Firsts(uses)|, |Firsts(uses)| + 2 + 2 * k)
  {
    assert Txs.IsLookup(|Firsts(uses)|, |Firsts(uses)| + 1 + 2 * k);
  }

  lemma {:induction false} PairsWithin(w: Chain, uses: seq<Use>, jobs: seq<Job>, errors: set<nat>, n: nat)
    requires Txs.JobsOk(w, uses, jobs) && Txs.Traced(uses, jobs, errors) && |jobs| == |Firsts(uses)| + 1 + 2 * n
    ensures n <= |uses|
  {
    var d := |Firsts(uses)|;
    var looked := LookedUpUses(jobs, d, n);
    forall k | 0 <= k < n ensures looked[k] in uses { LookedUpIsUse(w, uses, jobs, k); }
    forall j, k | 0 <= j < k < n ensures looked[j] != looked[k] {
      LookedUpIsUse(w, uses, jobs, j);
      LookedUpIsUse(w, uses, jobs, k);
      Listing.SameUseSameJob(w, uses, jobs, errors, d + 2 + 2 * j, d + 2 + 2 * k);
    }
    DistinctWithin(looked, uses);
  }

  /** There is at most one pair per use. */
  lemma {:induction false} PairsAreBounded(w: Chain, uses: seq<Use>, s: Search)
    requires Txs.Listed(w, uses, s)
    ensures |s.jobs| <= 1 + 3 * |uses|
  {
    var d := |Firsts(uses)|;
    PairsWithin(w, uses, s.jobs, s.errors, (|s.jobs| - d - 1) / 2);
    FirstsAreBounded(uses);
  }

  // ---------------------------------------------------------------- runs

  /** A request about an address always ends: with n outputs that pay the address no run has more than 2 + 6 n
      events. */
  lemma {:induction false} AddressRequestsTerminate(w: Chain, mode: Mode, script: Id, events: seq<Event>)
    requires ValidChain(w) && AddressMode(mode) && ValidRun(w, AddressRequest(mode, script), events)
    ensures |events| <= 2 + 6 * |UsesOf(w, script)|
  {
    if mode.AddressTxs? {
      Txs.AddressTxsNeverCrashes(w, script, events);
    } else {
      Balance.BalanceNeverCrashes(w, mode, script, events);
    }
    RunsAreBounded(w, AddressRequest(mode, script), events);
    var s := Run(w, AddressRequest(mode, script), events).s;
    if !Waiting(mode, script, s) {
      if mode.AddressTxs? {
        PairsAreBounded(w, UsesOf(w, script), s);
      } else {
        FetchesAreBounded(w, mode, UsesOf(w, script), s);
      }
    }
  }

  /** No job of a request about an address is ever rejected. */
  lemma {:induction false} AddressJobsAreNotRejected(w: Chain, mode: Mode, script: Id, events: seq<Event>)
    requires ValidChain(w) && AddressMode(mode) && ValidRun(w, AddressRequest(mode, script), events)
    ensures Run(w, AddressRequest(mode, script), events).Ok?
            && NothingToReject(Run(w, AddressRequest(mode, script), events).s)
  {
    if mode.AddressTxs? {
      Txs.AddressTxsNeverCrashes(w, script, events);
    } else {
      Balance.BalanceNeverCrashes(w, mode, script, events);
    }
    var s := Run(w, AddressRequest(mode, script), events).s;
    if !Waiting(mode, script, s) {
      forall i | 0 <= i < |s.jobs| && Startable(s.jobs[i]) ensures !Invalid(s.jobs[i]) {
        ListedNotRejected(w, mode, script, s, i);
      }
    }
  }

  lemma {:induction false} ListedNotRejected(w: Chain, mode: Mode, script: Id, s: Search, i: nat)
    requires ValidChain(w) && i < |s.jobs| && Startable(s.jobs[i])
    requires if mode.AddressTxs? then Txs.Listed(w, UsesOf(w, script), s)
             else Balance.Listed(w, mode, UsesOf(w, script), s)
    ensures !Invalid(s.jobs[i])
  {
    if mode.AddressTxs? {
      Txs.UsesAreInChain(w, script);
      Txs.Kinds(w, UsesOf(w, script), s.jobs, i);
    } else {
      Balance.UsesArePositive(w, script);
      Balance.Kinds(w, mode, UsesOf(w, script), s.jobs, i);
    }
  }

  // ---------------------------------------------------------------- runs to the end

  predicate AddressMode(mode: Mode) { mode.AddressTxs? || Balance.UtxoMode(mode) }

  ghost predicate AddressInv(w: Chain, mode: Mode, script: Id, s: Search) {
    || Waiting(mode, script, s)
    || (mode.AddressTxs? && Txs.Listed(w, UsesOf(w, script), s))
    || (Balance.UtxoMode(mode) && Balance.Listed(w, mode, UsesOf(w, script), s))
  }

  lemma {:induction false} AddressStep(w: Chain, mode: Mode, script: Id, s: Search, e: Event)
    requires ValidChain(w) && AddressMode(mode) && AddressInv(w, mode, script, s) && Enabled(w, s, e)
    ensures Next(w, s, e).Ok? && AddressInv(w, mode, script, Next(w, s, e).s)
  {
    assert ValidRun(w, s, [e]) by {
      if Next(w, s, e).Ok? { assert [e][1..] == [] && ValidRun(w, Next(w, s, e).s, []); }
    }
    if mode.AddressTxs? { Txs.TxsRunFrom(w, script, s, [e]); } else { Balance.BalanceRunFrom(w, mode, script, s, [e]); }
    OneStepRun(w, s, e);
  }

  lemma {:induction false} OneStepRun(w: Chain, s: Search, e: Event)
    requires Enabled(w, s, e) && ValidRun(w, s, [e])
    ensures Run(w, s, [e]) == Next(w, s, e)
  {
    assert [e][1..] == [];
    if Next(w, s, e).Ok? { assert Run(w, Next(w, s, e).s, []) == Next(w, s, e); }
  }

  lemma {:induction false} AddressFetchesAnswerable(w: Chain, mode: Mode, script: Id, s: Search)
    requires ValidChain(w) && AddressMode(mode) && AddressInv(w, mode, script, s)
    ensures FetchesAnswerable(w, s)
  {
    if !Waiting(mode, script, s) {
      forall i | 0 <= i < |s.jobs| && InFlight(s.jobs[i]) && s.jobs[i].kind.FetchTx?
        ensures PlaceOf(s.jobs[i]) in w.txs
      {
        ListedFetchAnswerable(w, mode, script, s, i);
      }
    }
  }

  lemma {:induction false} ListedFetchAnswerable(w: Chain, mode: Mode, script: Id, s: Search, i: nat)
    requires ValidChain(w) && i < |s.jobs| && InFlight(s.jobs[i]) && s.jobs[i].kind.FetchTx?
    requires if mode.AddressTxs? then Txs.Listed(w, UsesOf(w, script), s)
             else Balance.Listed(w, mode, UsesOf(w, script), s)
    ensures PlaceOf(s.jobs[i]) in w.txs
  {
    if mode.AddressTxs? {
      TxsFetchAnswerable(w, script, s, i);
    } else {
      BalanceFetchAnswerable(w, mode, script, s, i);
    }
  }

  lemma {:induction false} TxsFetchAnswerable(w: Chain, script: Id, s: Search, i: nat)
    requires ValidChain(w) && i < |s.jobs| && InFlight(s.jobs[i]) && s.jobs[i].kind.FetchTx?
    requires Txs.JobsOk(w, UsesOf(w, script), s.jobs)
    ensures PlaceOf(s.jobs[i]) in w.txs
  {
    var uses := UsesOf(w, script);
    Txs.UsesAreInChain(w, script);
    Txs.Kinds(w, uses, s.jobs, i);
    if i <= |Firsts(uses)| { FirstIsInChain(w, uses, i - 1); }
  }

  lemma {:induction false} BalanceFetchAnswerable(w: Chain, mode: Mode, script: Id, s: Search, i: nat)
    requires ValidChain(w) && i < |s.jobs| && InFlight(s.jobs[i]) && s.jobs[i].kind.FetchTx?
    requires Balance.JobsOk(w, mode, UsesOf(w, script), s.jobs)
    ensures PlaceOf(s.jobs[i]) in w.txs
  {
    Balance.UsesArePositive(w, script);
    Balance.Kinds(w, mode, UsesOf(w, script), s.jobs, i);
  }

  lemma {:induction false} FirstIsInChain(w: Chain, uses: seq<Use>, k: nat)
    requires UsesInChain(w, uses) && k < |Firsts(uses)|
    ensures Firsts(uses)[k] in w.txs
  {
    FirstsAreDistinct(uses);
    assert Firsts(uses)[k] in Firsts(uses);
    var n :| 0 <= n < |uses| && uses[n].pos == Firsts(uses)[k];
  }

  lemma {:induction false} AddressJobsBounded(w: Chain, mode: Mode, script: Id, s: Search)
    requires AddressMode(mode) && AddressInv(w, mode, script, s)
    ensures |s.jobs| <= 1 + 3 * |UsesOf(w, script)|
  {
    if !Waiting(mode, script, s) {
      if mode.AddressTxs? {
        PairsAreBounded(w, UsesOf(w, script), s);
      } else {
        FetchesAreBounded(w, mode, UsesOf(w, script), s);
      }
    }
  }

  /** From any state reached without failures the search can be brought to its end without failures. */
  lemma {:induction false} FinishFrom(w: Chain, mode: Mode, script: Id, s: Search) returns (events: seq<Event>)
    requires ValidChain(w) && AddressMode(mode) && AddressInv(w, mode, script, s) && s.errors == {}
    ensures ValidRun(w, s, events) && Run(w, s, events).Ok?
    ensures SearchFinished(Run(w, s, events).s) && Run(w, s, events).s.errors == {}
    decreases 2 + 6 * |UsesOf(w, script)| - Flags(s.jobs)
  {
    AddressJobsBounded(w, mode, script, s);
    FlagsBounded(s.jobs);
    if SearchFinished(s) {
      events := [];
    } else {
      AddressFetchesAnswerable(w, mode, script, s);
      var e := GoodStep(w, s);
      AddressStep(w, mode, script, s, e);
      OnlyFailuresFail(w, s, e);
      StepGrows(w, s, e);
      var rest := FinishFrom(w, mode, script, Next(w, s, e).s);
      events := [e] + rest;
      assert events[1..] == rest;
    }
  }

  /** Every request about an address has a run that ends without failures. */
  lemma {:induction false} AddressRequestCanFinish(w: Chain, mode: Mode, script: Id) returns (events: seq<Event>)
    requires ValidChain(w) && AddressMode(mode)
    ensures ValidRun(w, AddressRequest(mode, script), events) && Run(w, AddressRequest(mode, script), events).Ok?
    ensures SearchFinished(Run(w, AddressRequest(mode, script), events).s)
    ensures Run(w, AddressRequest(mode, script), events).s.errors == {}
  {
    events := FinishFrom(w, mode, script, AddressRequest(mode, script));
  }

  // ---------------------------------------------------------------- an address for which too much is counted

  const PLACE := Pos(1, 100)

  /** One transaction pays the address, whose script is 9, outputs of 5 and 7, and both are unspent. */
  const TWO_OUTPUTS := Chain(map[PLACE := ChainTx(0, [], [5, 7])], {Use(PLACE, 0), Use(PLACE, 1)}, map[0 := PLACE],
                             map[],
                             map[9 := [Use(PLACE, 0), Use(PLACE, 1)]])

  const ITS_USES := [Use(PLACE, 0), Use(PLACE, 1)]

  lemma {:induction false} TwoOutputsIsAChain()
    ensures ValidChain(TWO_OUTPUTS) && UsesOf(TWO_OUTPUTS, 9) == ITS_USES && Sums.Distinct(ITS_USES)
  {
  }

  lemma {:induction false} TwoOutputsAreUnspent()
    ensures Sums.UnspentUses(TWO_OUTPUTS, ITS_USES) == ITS_USES
  {
    assert ITS_USES[..1] == [Use(PLACE, 0)] && ITS_USES[..1][..0] == [];
    assert Sums.ReportedUnspent(TWO_OUTPUTS, ITS_USES[..1], {}) == [Use(PLACE, 0)];
  }

  lemma {:induction false} TwoOutputsAddUp()
    ensures Sums.WeightedBalance(TWO_OUTPUTS, ITS_USES, multiset(Sums.UsePlaces(ITS_USES))) == 24
    ensures Sums.TrueBalance(TWO_OUTPUTS, ITS_USES) == 12
  {
    assert Sums.UsePlaces(ITS_USES) == [PLACE, PLACE];
    var times := multiset([PLACE, PLACE]);
    assert times[PLACE] == 2;
    assert Sums.ValueOf(TWO_OUTPUTS, Use(PLACE, 0)) == 5 && Sums.ValueOf(TWO_OUTPUTS, Use(PLACE, 1)) == 7;
    var first := ITS_USES[..1];
    assert first == [Use(PLACE, 0)] && first[..0] == [];
    assert Sums.WeightedBalance(TWO_OUTPUTS, first, times) ==
           Sums.WeightedBalance(TWO_OUTPUTS, first[..0], times) + 5 * 2;
    assert Sums.TrueBalance(TWO_OUTPUTS, first) == Sums.TrueBalance(TWO_OUTPUTS, first[..0]) + 5;
  }

  /** A request for its balance has a run to the end without failures, and the run reports 24 in place of 12. */
  lemma {:induction false} SharedTransactionIsCountedTwice() returns (events: seq<Event>)
    ensures ValidRun(TWO_OUTPUTS, AddressRequest(AddressBalance, 9), events)
    ensures var o := Run(TWO_OUTPUTS, AddressRequest(AddressBalance, 9), events);
            o.Ok? && SearchFinished(o.s) && o.s.errors == {} && Sums.BalanceOf(o.s.txRefs, o.s.answer) == Some(24)
    ensures Sums.TrueBalance(TWO_OUTPUTS, Sums.UnspentUses(TWO_OUTPUTS, UsesOf(TWO_OUTPUTS, 9))) == 12
  {
    TwoOutputsIsAChain();
    events := AddressRequestCanFinish(TWO_OUTPUTS, AddressBalance, 9);
    Sums.ReportedBalance(TWO_OUTPUTS, 9, events);
    Sums.EachOnceNames(ITS_USES);
    TwoOutputsAreUnspent();
    TwoOutputsAddUp();
  }
}
