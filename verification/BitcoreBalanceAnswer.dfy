/**
 The balance answer (the AddressBalance case of threadSafeFinished) against the true balance of the address.
 */
module BitcoreBalanceAnswer {
  import opened BitcoreSearch
  import opened BitcoreAddress
  import opened BitcoreBalance
  import opened Counting
  import opened KeySums
  import opened Options
  import opened Sequences

  // ---------------------------------------------------------------- the answer as the code computes it

  function UnspentKeys(rows: map<nat, Pos>): set<nat> { set i | i in rows && rows[i].height == UNSPENT_HEIGHT }

  /** The sum over the delivered transactions, or None where an invalid dereference or a failed assertion occurs. */
  ghost function BalanceOf(txRefs: TxRefs, answer: seq<Answer>): Option<int> {
    if answer == [] then Some(0)
    else
      var a := answer[|answer| - 1];
      var before := BalanceOf(txRefs, answer[..|answer| - 1]);
      if before.None? || a.pos !in txRefs || !Indices(a.outputs, UnspentKeys(txRefs[a.pos])) then None
      else Some(before.value + KeySum(a.outputs, UnspentKeys(txRefs[a.pos])))
  }

  /** The loops of the answer. */
  method AddUpBalance(txRefs: TxRefs, answer: seq<Answer>) returns (balance: int)
    requires BalanceOf(txRefs, answer).Some?
    ensures balance == BalanceOf(txRefs, answer).value
  {
    balance := 0;
    assert answer[..0] == [];
    ghost var n := |answer|;
    DefinedPrefix(txRefs, answer, n);
    for j := 0 to |answer|
      invariant BalanceOf(txRefs, answer[..j]) == Some(balance)
    {
      var tx := answer[j];
      assert answer[..j + 1][..j] == answer[..j];
      DefinedPrefix(txRefs, answer, j + 1);
      var sum := AddUp(tx.outputs, txRefs[tx.pos].Keys, UnspentKeys(txRefs[tx.pos]));
      balance := balance + sum;
    }
    assert answer[..|answer|] == answer;
  }

  lemma {:induction false} DefinedPrefix(txRefs: TxRefs, answer: seq<Answer>, n: nat)
    requires BalanceOf(txRefs, answer).Some? && n <= |answer|
    ensures BalanceOf(txRefs, answer[..n]).Some?
    decreases |answer|
  {
    if n < |answer| {
      DefinedPrefix(txRefs, answer[..|answer| - 1], n);
      assert answer[..|answer| - 1][..n] == answer[..n];
    } else {
      assert answer[..n] == answer;
    }
  }

  // ---------------------------------------------------------------- the true balance

  ghost predicate Distinct(uses: seq<Use>) { forall j, k :: 0 <= j < k < |uses| ==> uses[j] != uses[k] }

  function ValueOf(w: Chain, u: Use): nat {
    if u.pos in w.txs && u.index < |w.txs[u.pos].outs| then w.txs[u.pos].outs[u.index] else 0
  }

  /** The uses that were reported unspent, in order: those whose check did not fail and which are unspent. */
  function ReportedUnspent(w: Chain, uses: seq<Use>, errors: set<nat>): seq<Use> {
    if uses == [] then []
    else
      var last := uses[|uses| - 1];
      ReportedUnspent(w, uses[..|uses| - 1], errors) + if |uses| !in errors && last in w.utxo then [last] else []
  }

  /** The uses that are unspent, in order. */
  function UnspentUses(w: Chain, uses: seq<Use>): seq<Use> { ReportedUnspent(w, uses, {}) }

  /** The outputs that a list of uses names, each once. */
  function EachOnce(uses: seq<Use>): seq<Use> {
    if uses == [] then []
    else
      var init, last := uses[..|uses| - 1], uses[|uses| - 1];
      EachOnce(init) + if last in init then [] else [last]
  }

  lemma {:induction false} EachOnceNames(uses: seq<Use>)
    ensures forall u :: u in EachOnce(uses) <==> u in uses
    ensures Distinct(EachOnce(uses))
    ensures Distinct(uses) ==> EachOnce(uses) == uses
  {
    if uses != [] {
      var init, last := uses[..|uses| - 1], uses[|uses| - 1];
      EachOnceNames(init);
      assert uses == init + [last];
      if Distinct(uses) {
        assert Distinct(init);
        assert last !in init;
      }
    }
  }

  /** The balance of the address: the value of its unspent outputs. */
  function TrueBalance(w: Chain, unspent: seq<Use>): nat {
    if unspent == [] then 0 else TrueBalance(w, unspent[..|unspent| - 1]) + ValueOf(w, unspent[|unspent| - 1])
  }

  /** The value of the unspent outputs that belong to transaction `p`. */
  function TxValue(w: Chain, unspent: seq<Use>, p: Pos): nat {
    if unspent == [] then 0
    else
      var u := unspent[|unspent| - 1];
      TxValue(w, unspent[..|unspent| - 1], p) + if u.pos == p then ValueOf(w, u) else 0
  }

  /** The value of the unspent outputs, each as often as its transaction occurs in `times`. */
  function WeightedBalance(w: Chain, unspent: seq<Use>, times: multiset<Pos>): nat {
    if unspent == [] then 0
    else
      var u := unspent[|unspent| - 1];
      WeightedBalance(w, unspent[..|unspent| - 1], times) + ValueOf(w, u) * times[u.pos]
  }

  lemma {:induction false} ReportedHolds(w: Chain, uses: seq<Use>, errors: set<nat>, u: Use)
    ensures u in ReportedUnspent(w, uses, errors) <==>
            u in w.utxo && exists i :: 1 <= i <= |uses| && uses[i - 1] == u && i !in errors
  {
    if uses != [] {
      var init, last := uses[..|uses| - 1], uses[|uses| - 1];
      ReportedHolds(w, init, errors, u);
      if u in ReportedUnspent(w, init, errors) {
        var i :| 1 <= i <= |init| && init[i - 1] == u && i !in errors;
        assert uses[i - 1] == u;
      }
      if i :| u in w.utxo && 1 <= i <= |uses| && uses[i - 1] == u && i !in errors {
        if i <= |init| { assert init[i - 1] == u; }
      }
      if |uses| !in errors && last == u { assert uses[|uses| - 1] == u; }
    }
  }

  lemma {:induction false} ReportedAreUses(w: Chain, uses: seq<Use>, errors: set<nat>)
    ensures forall u :: u in ReportedUnspent(w, uses, errors) ==> u in uses && u in w.utxo
  {
    if uses != [] {
      var init, u := uses[..|uses| - 1], uses[|uses| - 1];
      ReportedAreUses(w, init, errors);
      assert uses == init + [u];
    }
  }

  /** The outputs that were reported unspent, each once. */
  function ReportedOutputs(w: Chain, uses: seq<Use>, errors: set<nat>): seq<Use> {
    EachOnce(ReportedUnspent(w, uses, errors))
  }

  lemma {:induction false} ReportedInChain(w: Chain, uses: seq<Use>, errors: set<nat>)
    requires UsesInChain(w, uses)
    ensures UsesInChain(w, ReportedOutputs(w, uses, errors)) && Distinct(ReportedOutputs(w, uses, errors))
  {
    ReportedAreUses(w, uses, errors);
    EachOnceNames(ReportedUnspent(w, uses, errors));
    var unspent := ReportedOutputs(w, uses, errors);
    forall k | 0 <= k < |unspent| ensures unspent[k].pos in w.txs && unspent[k].index < |w.txs[unspent[k].pos].outs| {
      assert unspent[k] in uses;
    }
  }

  // ---------------------------------------------------------------- rows at the end

  function KeysOf(unspent: seq<Use>, p: Pos): set<nat> { set u | u in unspent && u.pos == p :: u.index }

  lemma {:induction false} KeysOfSnoc(init: seq<Use>, u: Use, p: Pos)
    requires u !in init
    ensures u.pos == p ==> u.index !in KeysOf(init, p) && KeysOf(init + [u], p) == KeysOf(init, p) + {u.index}
    ensures u.pos != p ==> KeysOf(init + [u], p) == KeysOf(init, p)
  {
  }

  lemma {:induction false} KeysGiveTxValue(w: Chain, unspent: seq<Use>, p: Pos)
    requires Distinct(unspent) && UsesInChain(w, unspent) && p in w.txs
    ensures Indices(w.txs[p].outs, KeysOf(unspent, p))
    ensures KeySum(w.txs[p].outs, KeysOf(unspent, p)) == TxValue(w, unspent, p)
  {
    if unspent == [] {
      assert KeysOf(unspent, p) == {};
    } else {
      var init, u := unspent[..|unspent| - 1], unspent[|unspent| - 1];
      KeysGiveTxValue(w, init, p);
      assert unspent == init + [u];
      KeysOfSnoc(init, u, p);
      if u.pos == p {
        var keys := KeysOf(init, p);
        assert keys + {u.index} - {u.index} == keys;
        KeySumRemove(w.txs[p].outs, keys + {u.index}, u.index);
      }
    }
  }

  lemma {:induction false} AllFinished(w: Chain, mode: Mode, uses: seq<Use>, s: Search, i: nat)
    requires ValidChain(w) && Listed(w, mode, uses, s) && SearchFinished(s) && i < |s.jobs|
    requires forall k :: 0 <= k < |uses| ==> Positive(uses[k].pos)
    ensures s.jobs[i].finished
  {
    Kinds(w, mode, uses, s.jobs, i);
    assert !InFlight(s.jobs[i]) && !Startable(s.jobs[i]);
  }

  /** Once finished, an output has been checked exactly when one of its checks did not fail. */
  lemma {:induction false} CheckedIff(w: Chain, mode: Mode, uses: seq<Use>, s: Search, u: Use)
    requires ValidChain(w) && Listed(w, mode, uses, s) && SearchFinished(s)
    requires forall k :: 0 <= k < |uses| ==> Positive(uses[k].pos)
    ensures Checked(uses, s.jobs, s.errors, u) <==> exists i :: 1 <= i <= |uses| && uses[i - 1] == u && i !in s.errors
  {
    forall i | 1 <= i <= |uses| ensures DoneAt(s.jobs, s.errors, i) <==> i !in s.errors {
      AllFinished(w, mode, uses, s, i);
    }
    if i :| 1 <= i <= |uses| && uses[i - 1] == u && i !in s.errors { assert DoneAt(s.jobs, s.errors, i); }
  }

  /** The output at index `i` of `p` is marked unspent exactly when it was reported. */
  lemma {:induction false} MarkedIff(w: Chain, mode: Mode, uses: seq<Use>, s: Search, u: Use)
    requires ValidChain(w) && Listed(w, mode, uses, s) && SearchFinished(s)
    requires forall k :: 0 <= k < |uses| ==> Positive(uses[k].pos)
    ensures u.pos in s.txRefs && u.index in UnspentKeys(s.txRefs[u.pos]) <==> u in ReportedUnspent(w, uses, s.errors)
  {
    TableHolds(uses);
    assert Use(u.pos, u.index) == u;
    ReportedHolds(w, uses, s.errors, u);
    ReportedAreUses(w, uses, s.errors);
    if u in uses {
      assert RowOk(w, uses, s.jobs, s.errors, s.txRefs, u);
      CheckedIff(w, mode, uses, s, u);
    }
  }

  lemma {:induction false} FinalRows(w: Chain, mode: Mode, uses: seq<Use>, s: Search, p: Pos)
    requires ValidChain(w) && Listed(w, mode, uses, s) && SearchFinished(s) && p in s.txRefs
    requires forall k :: 0 <= k < |uses| ==> Positive(uses[k].pos)
    ensures UnspentKeys(s.txRefs[p]) == KeysOf(ReportedOutputs(w, uses, s.errors), p)
  {
    var reported := ReportedOutputs(w, uses, s.errors);
    EachOnceNames(ReportedUnspent(w, uses, s.errors));
    forall i: nat ensures i in UnspentKeys(s.txRefs[p]) <==> i in KeysOf(reported, p) {
      MarkedIff(w, mode, uses, s, Use(p, i));
      if i in KeysOf(reported, p) {
        var v :| v in reported && v.pos == p && v.index == i;
        assert v == Use(p, i);
      }
    }
  }

  // ---------------------------------------------------------------- sums over places

  function PlaceSum(f: Pos -> int, ps: seq<Pos>): int {
    if ps == [] then 0 else PlaceSum(f, ps[..|ps| - 1]) + f(ps[|ps| - 1])
  }

  function AnswerPlaces(answer: seq<Answer>): seq<Pos> { seq(|answer|, j requires 0 <= j < |answer| => answer[j].pos) }

  function UsePlaces(uses: seq<Use>): seq<Pos> { seq(|uses|, j requires 0 <= j < |uses| => uses[j].pos) }

  lemma {:induction false} AnswerCount(answer: seq<Answer>, p: Pos, n: nat)
    requires n <= |answer|
    ensures multiset(AnswerPlaces(answer)[..n])[p] == Count(j => AnsweredAt(answer, p, j), 0, n)
  {
    if n > 0 {
      AnswerCount(answer, p, n - 1);
      assert AnswerPlaces(answer)[..n] == AnswerPlaces(answer)[..n - 1] + [answer[n - 1].pos];
    }
  }

  /** How many fetches of the transaction failed. */
  ghost function FailedFetches(uses: seq<Use>, jobs: seq<Job>, errors: set<nat>, p: Pos): nat {
    Count(i => PlacedAt(jobs, p, i) && i in errors, |uses| + 1, |jobs|)
  }

  lemma {:induction false} ReportedCount(w: Chain, uses: seq<Use>, jobs: seq<Job>, errors: set<nat>, p: Pos, n: nat)
    requires n <= |uses| < |jobs| && forall i :: 1 <= i <= |uses| ==> (DoneAt(jobs, errors, i) <==> i !in errors)
    ensures multiset(UsePlaces(ReportedUnspent(w, uses[..n], errors)))[p] ==
            Count(i => UnspentCheck(w, uses, jobs, errors, p, i), 1, n + 1)
  {
    if n > 0 {
      ReportedCount(w, uses, jobs, errors, p, n - 1);
      TakeSnoc(uses, n);
      var u := uses[n - 1];
      var before, now := ReportedUnspent(w, uses[..n - 1], errors), ReportedUnspent(w, uses[..n], errors);
      assert DoneAt(jobs, errors, n) <==> n !in errors;
      if n !in errors && u in w.utxo {
        assert now == before + [u];
        assert UsePlaces(now) == UsePlaces(before) + [u.pos];
      } else {
        assert now == before;
      }
    }
  }

  /** Once finished, each transaction has been fetched once per output reported unspent, and delivered by the fetches
      that did not fail. */
  lemma {:induction false} DeliveriesMatchReported(w: Chain, mode: Mode, uses: seq<Use>, s: Search, p: Pos)
    requires ValidChain(w) && Listed(w, mode, uses, s) && SearchFinished(s)
    requires forall k :: 0 <= k < |uses| ==> Positive(uses[k].pos)
    ensures multiset(AnswerPlaces(s.answer))[p] + FailedFetches(uses, s.jobs, s.errors, p)
         == multiset(UsePlaces(ReportedUnspent(w, uses, s.errors)))[p]
  {
    forall i | 1 <= i < |s.jobs| ensures DoneAt(s.jobs, s.errors, i) <==> i !in s.errors {
      AllFinished(w, mode, uses, s, i);
    }
    assert Tally(w, uses, s.jobs, s.errors, s.answer, p);
    CountSplits(i => PlacedAt(s.jobs, p, i), i => DeliveredAt(s.jobs, s.errors, p, i),
                i => PlacedAt(s.jobs, p, i) && i in s.errors, |uses| + 1, |s.jobs|);
    AnswerCount(s.answer, p, |s.answer|);
    ReportedCount(w, uses, s.jobs, s.errors, p, |uses|);
    assert uses[..|uses|] == uses && AnswerPlaces(s.answer)[..|s.answer|] == AnswerPlaces(s.answer);
  }

  function TxValueAt(w: Chain, unspent: seq<Use>): Pos -> int { p => TxValue(w, unspent, p) }

  lemma {:induction false} OnceMore(value: int, n: int)
    ensures value * (n + 1) == value * n + value
  {
  }

  lemma {:induction false} OneMoreTime(w: Chain, unspent: seq<Use>, times: multiset<Pos>, p: Pos)
    ensures WeightedBalance(w, unspent, times + multiset{p}) ==
            WeightedBalance(w, unspent, times) + TxValue(w, unspent, p)
  {
    if unspent != [] {
      var u := unspent[|unspent| - 1];
      OneMoreTime(w, unspent[..|unspent| - 1], times, p);
      assert (times + multiset{p})[u.pos] == times[u.pos] + if u.pos == p then 1 else 0;
      OnceMore(ValueOf(w, u), times[u.pos]);
    }
  }

  lemma {:induction false} NeverIsNothing(w: Chain, unspent: seq<Use>)
    ensures WeightedBalance(w, unspent, multiset{}) == 0
  {
    if unspent != [] { NeverIsNothing(w, unspent[..|unspent| - 1]); }
  }

  /** Adding up per delivered transaction is adding up per output. */
  lemma {:induction false} SumsSwap(w: Chain, unspent: seq<Use>, ps: seq<Pos>)
    ensures PlaceSum(TxValueAt(w, unspent), ps) == WeightedBalance(w, unspent, multiset(ps))
  {
    if ps == [] {
      NeverIsNothing(w, unspent);
    } else {
      var init, p := ps[..|ps| - 1], ps[|ps| - 1];
      SumsSwap(w, unspent, init);
      assert ps == init + [p];
      OneMoreTime(w, unspent, multiset(init), p);
    }
  }

  // ---------------------------------------------------------------- the balance after any run

  /** What one delivered transaction adds. */
  lemma {:induction false} OneContribution(w: Chain, uses: seq<Use>, s: Search, a: Answer)
    requires ValidChain(w) && Listed(w, AddressBalance, uses, s) && SearchFinished(s)
             && AnswerOk(w, AddressBalance, uses, a)
    requires UsesInChain(w, uses) && forall k :: 0 <= k < |uses| ==> Positive(uses[k].pos)
    ensures Contributes(s.txRefs, a, TxValueAt(w, ReportedOutputs(w, uses, s.errors)))
  {
    assert a.pos in s.txRefs;
    FinalRows(w, AddressBalance, uses, s, a.pos);
    ReportedInChain(w, uses, s.errors);
    KeysGiveTxValue(w, ReportedOutputs(w, uses, s.errors), a.pos);
  }

  /** The delivered transaction can be added up and adds `f` of its place. */
  ghost predicate Contributes(txRefs: TxRefs, a: Answer, f: Pos -> int) {
    && a.pos in txRefs && Indices(a.outputs, UnspentKeys(txRefs[a.pos]))
    && KeySum(a.outputs, UnspentKeys(txRefs[a.pos])) == f(a.pos)
  }

  lemma {:induction false} ContributionsAddUp(txRefs: TxRefs, answer: seq<Answer>, f: Pos -> int, n: nat)
    requires n <= |answer| && forall k :: 0 <= k < |answer| ==> Contributes(txRefs, answer[k], f)
    ensures BalanceOf(txRefs, answer[..n]) == Some(PlaceSum(f, AnswerPlaces(answer)[..n]))
  {
    if n > 0 {
      ContributionsAddUp(txRefs, answer, f, n - 1);
      assert Contributes(txRefs, answer[n - 1], f);
      TakeSnoc(answer, n);
      TakeSnoc(AnswerPlaces(answer), n);
    }
  }

  lemma {:induction false} FinishedBalance(w: Chain, uses: seq<Use>, s: Search)
    requires ValidChain(w) && Listed(w, AddressBalance, uses, s) && SearchFinished(s)
    requires UsesInChain(w, uses) && forall k :: 0 <= k < |uses| ==> Positive(uses[k].pos)
    ensures BalanceOf(s.txRefs, s.answer) ==
            Some(WeightedBalance(w, ReportedOutputs(w, uses, s.errors), multiset(AnswerPlaces(s.answer))))
  {
    var reported := ReportedOutputs(w, uses, s.errors);
    var f := TxValueAt(w, reported);
    forall k | 0 <= k < |s.answer| ensures Contributes(s.txRefs, s.answer[k], f) {
      OneContribution(w, uses, s, s.answer[k]);
    }
    ContributionsAddUp(s.txRefs, s.answer, f, |s.answer|);
    assert s.answer[..|s.answer|] == s.answer && AnswerPlaces(s.answer)[..|s.answer|] == AnswerPlaces(s.answer);
    SumsSwap(w, reported, AnswerPlaces(s.answer));
  }

  /** After every run that finishes, whatever failed in it and however often the indexer names an output, the answer is
      computed without an invalid dereference or a failed assertion: every output reported unspent, as often as its
      transaction was delivered. A transaction is fetched once per report of an unspent output of it, and delivered by
      the fetches that did not fail. */
  lemma {:induction false} BalanceAfterAnyRun(w: Chain, script: Id, events: seq<Event>)
    requires ValidChain(w) && ValidRun(w, AddressRequest(AddressBalance, script), events)
    requires Run(w, AddressRequest(AddressBalance, script), events).Ok? ==>
               SearchFinished(Run(w, AddressRequest(AddressBalance, script), events).s)
    ensures Run(w, AddressRequest(AddressBalance, script), events).Ok?
    ensures var s := Run(w, AddressRequest(AddressBalance, script), events).s;
            var reported := ReportedUnspent(w, UsesOf(w, script), s.errors);
            var outputs := ReportedOutputs(w, UsesOf(w, script), s.errors);
            && BalanceOf(s.txRefs, s.answer) == Some(WeightedBalance(w, outputs, multiset(AnswerPlaces(s.answer))))
            && forall p :: multiset(AnswerPlaces(s.answer))[p] + FailedFetches(UsesOf(w, script), s.jobs, s.errors, p)
                        == multiset(UsePlaces(reported))[p]
  {
    BalanceNeverCrashes(w, AddressBalance, script, events);
    var s := Run(w, AddressRequest(AddressBalance, script), events).s;
    var uses := UsesOf(w, script);
    UsesArePositive(w, script);
    WaitingIsUnfinished(AddressBalance, script, s);
    FinishedBalance(w, uses, s);
    forall p { DeliveriesMatchReported(w, AddressBalance, uses, s, p); }
  }

  // ---------------------------------------------------------------- when it is the true balance

  /** Every unspent output that is worth something has its transaction delivered once. */
  ghost predicate OnceEach(w: Chain, unspent: seq<Use>, times: multiset<Pos>) {
    forall k :: 0 <= k < |unspent| ==> ValueOf(w, unspent[k]) == 0 || times[unspent[k].pos] == 1
  }

  lemma {:induction false} WeightedIsTrue(w: Chain, unspent: seq<Use>, times: multiset<Pos>)
    requires OnceEach(w, unspent, times)
    ensures WeightedBalance(w, unspent, times) == TrueBalance(w, unspent)
  {
    if unspent != [] {
      var init := unspent[..|unspent| - 1];
      assert forall k :: 0 <= k < |init| ==> init[k] == unspent[k];
      WeightedIsTrue(w, init, times);
    }
  }

  lemma {:induction false} WeightedAtLeastTrue(w: Chain, unspent: seq<Use>, times: multiset<Pos>)
    requires forall k :: 0 <= k < |unspent| ==> times[unspent[k].pos] >= 1
    ensures WeightedBalance(w, unspent, times) >= TrueBalance(w, unspent)
    ensures WeightedBalance(w, unspent, times) == TrueBalance(w, unspent) <==> OnceEach(w, unspent, times)
  {
    if OnceEach(w, unspent, times) { WeightedIsTrue(w, unspent, times); }
    if unspent != [] {
      var init, u := unspent[..|unspent| - 1], unspent[|unspent| - 1];
      assert forall k :: 0 <= k < |init| ==> init[k] == unspent[k];
      WeightedAtLeastTrue(w, init, times);
      var v, t := ValueOf(w, u), times[u.pos];
      TimesAtLeastOnce(v, t);
      if OnceEach(w, init, times) && (v == 0 || t == 1) { assert OnceEach(w, unspent, times); }
    }
  }

  lemma {:induction false} TimesAtLeastOnce(v: nat, t: nat)
    requires t >= 1
    ensures v * t >= v && (v * t == v <==> v == 0 || t == 1)
  {
    if t > 1 {
      TimesAtLeastOnce(v, t - 1);
      assert v * t == v * (t - 1) + v;
    }
  }

  /** Given that each transaction with an output reported unspent occurs in the answer, the reported balance is the
      sum of the outputs reported unspent exactly when each of these transactions occurs once, unless its outputs are
      worth nothing. */
  lemma {:induction false} BalanceIsTheReportedIff(w: Chain, script: Id, events: seq<Event>)
    requires ValidChain(w) && ValidRun(w, AddressRequest(AddressBalance, script), events)
    requires Run(w, AddressRequest(AddressBalance, script), events).Ok? ==>
               SearchFinished(Run(w, AddressRequest(AddressBalance, script), events).s)
    ensures Run(w, AddressRequest(AddressBalance, script), events).Ok?
    ensures var s := Run(w, AddressRequest(AddressBalance, script), events).s;
            var reported := ReportedOutputs(w, UsesOf(w, script), s.errors);
            var times := multiset(AnswerPlaces(s.answer));
            && (OnceEach(w, reported, times) ==> BalanceOf(s.txRefs, s.answer) == Some(TrueBalance(w, reported)))
            && ((forall k :: 0 <= k < |reported| ==> reported[k].pos in times) ==>
                  (BalanceOf(s.txRefs, s.answer) == Some(TrueBalance(w, reported)) <==> OnceEach(w, reported, times)))
  {
    BalanceAfterAnyRun(w, script, events);
    var s := Run(w, AddressRequest(AddressBalance, script), events).s;
    var reported := ReportedOutputs(w, UsesOf(w, script), s.errors);
    var times := multiset(AnswerPlaces(s.answer));
    if OnceEach(w, reported, times) { WeightedIsTrue(w, reported, times); }
    if forall k :: 0 <= k < |reported| ==> reported[k].pos in times { WeightedAtLeastTrue(w, reported, times); }
  }

  /** No two entries for unspent outputs of the address share a transaction, unless they are worth nothing. */
  ghost predicate NoSharedTransaction(w: Chain, unspent: seq<Use>) {
    forall j, k :: 0 <= j < |unspent| && 0 <= k < |unspent| && j != k && unspent[j].pos == unspent[k].pos ==>
                   ValueOf(w, unspent[j]) == 0
  }

  lemma {:induction false} CountBothSides(ps: seq<Pos>, k: nat)
    requires k < |ps|
    ensures multiset(ps)[ps[k]] == multiset(ps[..k])[ps[k]] + 1 + multiset(ps[k + 1..])[ps[k]]
  {
    assert ps == ps[..k] + ([ps[k]] + ps[k + 1..]);
  }

  /** A place occurs once exactly when it occurs at no other index. */
  lemma {:induction false} OccursOnceIff(ps: seq<Pos>, k: nat)
    requires k < |ps|
    ensures multiset(ps)[ps[k]] >= 1
    ensures multiset(ps)[ps[k]] == 1 <==> forall j :: 0 <= j < |ps| && j != k ==> ps[j] != ps[k]
  {
    CountBothSides(ps, k);
    var a, b := ps[..k], ps[k + 1..];
    if multiset(ps)[ps[k]] == 1 {
      forall j | 0 <= j < |ps| && j != k ensures ps[j] != ps[k] {
        if j < k {
          assert a[j] == ps[j] && ps[j] in multiset(a);
        } else {
          assert b[j - k - 1] == ps[j] && ps[j] in multiset(b);
        }
      }
    }
    if forall j :: 0 <= j < |ps| && j != k ==> ps[j] != ps[k] { assert ps[k] !in a && ps[k] !in b; }
  }

  lemma {:induction false} OnceEachIffNotShared(w: Chain, unspent: seq<Use>)
    ensures OnceEach(w, unspent, multiset(UsePlaces(unspent))) <==> NoSharedTransaction(w, unspent)
  {
    var ps := UsePlaces(unspent);
    forall k | 0 <= k < |unspent|
      ensures multiset(ps)[unspent[k].pos] == 1 <==>
              forall j :: 0 <= j < |unspent| && j != k ==> unspent[j].pos != unspent[k].pos
    {
      OccursOnceIff(ps, k);
      assert forall j :: 0 <= j < |unspent| ==> ps[j] == unspent[j].pos;
      if forall j :: 0 <= j < |unspent| && j != k ==> unspent[j].pos != unspent[k].pos {
        assert forall j :: 0 <= j < |ps| && j != k ==> ps[j] != ps[k];
      }
      if multiset(ps)[unspent[k].pos] == 1 {
        forall j | 0 <= j < |unspent| && j != k ensures unspent[j].pos != unspent[k].pos { assert ps[j] != ps[k]; }
      }
    }
    if NoSharedTransaction(w, unspent) {
      forall k | 0 <= k < |unspent| && ValueOf(w, unspent[k]) != 0 ensures multiset(ps)[unspent[k].pos] == 1 {
        forall j | 0 <= j < |unspent| && j != k ensures unspent[j].pos != unspent[k].pos { }
      }
    }
  }

  /** The balance reported after any run that finishes without failures: each unspent output, as often as its
      transaction is named with an unspent output of the address. */
  lemma {:induction false} ReportedBalance(w: Chain, script: Id, events: seq<Event>)
    requires ValidChain(w) && ValidRun(w, AddressRequest(AddressBalance, script), events)
    requires Run(w, AddressRequest(AddressBalance, script), events).Ok? ==>
               SearchFinished(Run(w, AddressRequest(AddressBalance, script), events).s)
               && Run(w, AddressRequest(AddressBalance, script), events).s.errors == {}
    ensures Run(w, AddressRequest(AddressBalance, script), events).Ok?
    ensures var s := Run(w, AddressRequest(AddressBalance, script), events).s;
            var unspent := UnspentUses(w, UsesOf(w, script));
            BalanceOf(s.txRefs, s.answer) == Some(WeightedBalance(w, EachOnce(unspent), multiset(UsePlaces(unspent))))
  {
    BalanceAfterAnyRun(w, script, events);
    var s := Run(w, AddressRequest(AddressBalance, script), events).s;
    var uses := UsesOf(w, script);
    forall p ensures FailedFetches(uses, s.jobs, s.errors, p) == 0 { NoFailedFetches(uses, s.jobs, s.errors, p); }
    assert multiset(AnswerPlaces(s.answer)) == multiset(UsePlaces(UnspentUses(w, uses)));
  }

  lemma {:induction false} NoFailedFetches(uses: seq<Use>, jobs: seq<Job>, errors: set<nat>, p: Pos)
    requires errors == {}
    ensures FailedFetches(uses, jobs, errors, p) == 0
  {
    CountNone(i => PlacedAt(jobs, p, i) && i in errors, |uses| + 1, |jobs|);
  }

  lemma {:induction false} OnceEachOfNamed(w: Chain, uses: seq<Use>, times: multiset<Pos>)
    ensures OnceEach(w, EachOnce(uses), times) <==> OnceEach(w, uses, times)
  {
    var once := EachOnce(uses);
    EachOnceNames(uses);
    if OnceEach(w, once, times) {
      forall k | 0 <= k < |uses| ensures ValueOf(w, uses[k]) == 0 || times[uses[k].pos] == 1 {
        assert uses[k] in once;
      }
    }
    if OnceEach(w, uses, times) {
      forall k | 0 <= k < |once| ensures ValueOf(w, once[k]) == 0 || times[once[k].pos] == 1 {
        assert once[k] in uses;
      }
    }
  }

  /** After any run that finishes without failures, the reported balance is never too small, and it is the true
      balance of the address exactly when no two entries of the indexer's list for unspent outputs share a transaction,
      unless they are worth nothing. */
  lemma {:induction false} ReportedBalanceIsTrueIff(w: Chain, script: Id, events: seq<Event>)
    requires ValidChain(w) && ValidRun(w, AddressRequest(AddressBalance, script), events)
    requires Run(w, AddressRequest(AddressBalance, script), events).Ok? ==>
               SearchFinished(Run(w, AddressRequest(AddressBalance, script), events).s)
               && Run(w, AddressRequest(AddressBalance, script), events).s.errors == {}
    ensures Run(w, AddressRequest(AddressBalance, script), events).Ok?
    ensures var s := Run(w, AddressRequest(AddressBalance, script), events).s;
            var unspent := UnspentUses(w, UsesOf(w, script));
            var balance := TrueBalance(w, EachOnce(unspent));
            && BalanceOf(s.txRefs, s.answer).Some? && BalanceOf(s.txRefs, s.answer).value >= balance
            && (BalanceOf(s.txRefs, s.answer) == Some(balance) <==> NoSharedTransaction(w, unspent))
  {
    ReportedBalance(w, script, events);
    var unspent := UnspentUses(w, UsesOf(w, script));
    var once, ps := EachOnce(unspent), UsePlaces(unspent);
    EachOnceNames(unspent);
    forall k | 0 <= k < |once| ensures multiset(ps)[once[k].pos] >= 1 {
      assert once[k] in unspent;
      var j :| 0 <= j < |unspent| && unspent[j] == once[k];
      OccursOnceIff(ps, j);
    }
    WeightedAtLeastTrue(w, once, multiset(ps));
    OnceEachOfNamed(w, unspent, multiset(ps));
    OnceEachIffNotShared(w, unspent);
  }
}
