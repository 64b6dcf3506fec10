/**
 Requests about an address (AddressTxs, AddressUnspentOutputs, AddressBalance): what the indexer's list of uses
 turns into.
 */
module BitcoreAddress {
  import opened BitcoreSearch
  import opened Sequences

  predicate UsesInChain(w: Chain, uses: seq<Use>) {
    forall k :: 0 <= k < |uses| ==> uses[k].pos in w.txs && uses[k].index < |w.txs[uses[k].pos].outs|
  }

  /** The table after the uses have been reported, in order. */
  function Table(uses: seq<Use>): TxRefs {
    if uses == [] then map[] else AddRow(Table(uses[..|uses| - 1]), uses[|uses| - 1])
  }

  /** The distinct transactions of the uses, in order of first appearance. */
  function Firsts(uses: seq<Use>): seq<Pos> {
    if uses == [] then []
    else
      var f := Firsts(uses[..|uses| - 1]);
      var p := uses[|uses| - 1].pos;
      if p in f then f else f + [p]
  }

  function FullFetches(ps: seq<Pos>): seq<Job> {
    seq(|ps|, k requires 0 <= k < |ps| => FetchAt(IncludeFullTransactionData, ps[k]))
  }

  function Checks(uses: seq<Use>): seq<Job> {
    seq(|uses|, k requires 0 <= k < |uses| => CheckUnspent(uses[k]))
  }

  /** The jobs created for the uses. */
  function JobsFor(mode: Mode, uses: seq<Use>): seq<Job> {
    if mode.AddressTxs? then FullFetches(Firsts(uses))
    else if mode.AddressBalance? || mode.AddressUnspentOutputs? then Checks(uses)
    else []
  }

  predicate HasRow(t: TxRefs, p: Pos, i: nat) { p in t && i in t[p] }

  lemma {:induction false} AddRowAdds(t: TxRefs, u: Use, p: Pos, i: nat)
    ensures HasRow(AddRow(t, u), p, i) <==> HasRow(t, p, i) || Use(p, i) == u
    ensures p in AddRow(t, u) <==> p in t || p == u.pos
    ensures HasRow(t, p, i) ==> AddRow(t, u)[p][i] == t[p][i]
    ensures Use(p, i) == u && !HasRow(t, p, i) ==> AddRow(t, u)[p][i] == UNKNOWN
  {
  }

  lemma {:induction false} TableRow(uses: seq<Use>, p: Pos, i: nat)
    ensures HasRow(Table(uses), p, i) <==> Use(p, i) in uses
    ensures HasRow(Table(uses), p, i) ==> Table(uses)[p][i] == UNKNOWN
    ensures p in Table(uses) <==> p in Firsts(uses)
  {
    if uses != [] {
      var init, u := uses[..|uses| - 1], uses[|uses| - 1];
      TableRow(init, p, i);
      AddRowAdds(Table(init), u, p, i);
      assert uses == init + [u];
    }
  }

  lemma {:induction false} TableHolds(uses: seq<Use>)
    ensures forall p :: p in Table(uses) <==> p in Firsts(uses)
    ensures forall p, i :: p in Table(uses) && i in Table(uses)[p] ==> i >= 0 && Table(uses)[p][i] == UNKNOWN
    ensures forall p, i: nat :: Use(p, i) in uses <==> p in Table(uses) && i in Table(uses)[p]
  {
    forall p, i: nat { TableRow(uses, p, i); }
    forall p ensures p in Table(uses) <==> p in Firsts(uses) { TableRow(uses, p, 0); }
  }

  lemma {:induction false} FirstsAreDistinct(uses: seq<Use>)
    ensures forall j, k :: 0 <= j < k < |Firsts(uses)| ==> Firsts(uses)[j] != Firsts(uses)[k]
    ensures forall p :: p in Firsts(uses) <==> exists k :: 0 <= k < |uses| && uses[k].pos == p
  {
    if uses != [] {
      var init, u := uses[..|uses| - 1], uses[|uses| - 1];
      FirstsAreDistinct(init);
      assert uses == init + [u];
      forall p ensures p in Firsts(uses) <==> exists k :: 0 <= k < |uses| && uses[k].pos == p {
        if p in Firsts(uses) {
          if p in Firsts(init) {
            var k :| 0 <= k < |init| && init[k].pos == p;
            assert uses[k].pos == p;
          } else {
            assert uses[|uses| - 1].pos == p;
          }
        }
        if k :| 0 <= k < |uses| && uses[k].pos == p {
          if k < |init| { assert init[k].pos == p; }
        }
      }
    }
  }

  /** The job that one more use adds. */
  function JobForUse(mode: Mode, done: seq<Use>, u: Use): seq<Job> {
    if mode.AddressTxs? then
      if u.pos in Firsts(done) then [] else [FetchAt(IncludeFullTransactionData, u.pos)]
    else if mode.AddressBalance? || mode.AddressUnspentOutputs? then [CheckUnspent(u)]
    else []
  }

  lemma {:induction false} JobsForOneMore(mode: Mode, done: seq<Use>, u: Use)
    ensures JobsFor(mode, done + [u]) == JobsFor(mode, done) + JobForUse(mode, done, u)
  {
    assert (done + [u])[..|done|] == done;
    if mode.AddressTxs? {
      var fetch := FetchAt(IncludeFullTransactionData, u.pos);
      if u.pos !in Firsts(done) { assert FullFetches(Firsts(done) + [u.pos]) == FullFetches(Firsts(done)) + [fetch]; }
    } else {
      assert Checks(done + [u]) == Checks(done) + [CheckUnspent(u)];
    }
  }

  /** The state once `uses` have been reported, with the jobs before them in `base`. */
  function AfterUses(s: Search, base: seq<Job>, uses: seq<Use>): Search {
    s.(txRefs := Table(uses), jobs := base + JobsFor(s.mode, uses))
  }

  lemma {:induction false} OneUse(s: Search, base: seq<Job>, done: seq<Use>, u: Use)
    requires Positive(u.pos) && s.txRefs == Table(done) && s.jobs == base + JobsFor(s.mode, done)
    ensures AddressUsedInOutput(s, u) == Ok(AfterUses(s, base, done + [u]))
  {
    assert (done + [u])[..|done|] == done;
    TableHolds(done);
    JobsForOneMore(s.mode, done, u);
    JoinAssociates(base, JobsFor(s.mode, done), JobForUse(s.mode, done, u));
  }

  /** Reporting all uses never fails and yields exactly the table and the jobs described above. */
  lemma {:induction false} UsesAreListed(s: Search, base: seq<Job>, done: seq<Use>, uses: seq<Use>)
    requires forall k :: 0 <= k < |uses| ==> Positive(uses[k].pos)
    requires s.txRefs == Table(done) && s.jobs == base + JobsFor(s.mode, done)
    ensures AllUses(s, uses) == Ok(AfterUses(s, base, done + uses))
    decreases uses
  {
    if uses == [] {
      JoinEmpty(done);
    } else {
      OneUse(s, base, done, uses[0]);
      var s1 := AfterUses(s, base, done + [uses[0]]);
      UsesAreListed(s1, base, done + [uses[0]], uses[1..]);
      JoinAssociates(done, [uses[0]], uses[1..]);
      assert [uses[0]] + uses[1..] == uses;
    }
  }

  function UsesOf(w: Chain, script: Id): seq<Use> { if script in w.uses then w.uses[script] else [] }

  /** The request before the indexer has answered. */
  predicate Waiting(mode: Mode, script: Id, s: Search) {
    && s.mode == mode && |s.jobs| == 1 && s.jobs[0].(started := false) == AddressRequest(mode, script).jobs[0]
    && s.answer == [] && s.txRefs == map[] && s.errors == {}
  }

  lemma {:induction false} WaitingIsUnfinished(mode: Mode, script: Id, s: Search)
    requires SearchFinished(s)
    ensures !Waiting(mode, script, s)
  {
    if |s.jobs| == 1 { assert !InFlight(s.jobs[0]) && !Startable(s.jobs[0]); }
  }

  lemma {:induction false} WaitingSteps(w: Chain, mode: Mode, script: Id, s: Search, e: Event)
    requires ValidChain(w) && Waiting(mode, script, s) && Enabled(w, s, e)
    ensures Next(w, s, e).Ok?
    ensures var s' := Next(w, s, e).s;
            Waiting(mode, script, s') || (
              && e == Reply(0) && s'.txRefs == Table(UsesOf(w, script)) && s'.answer == [] && s'.errors == {}
              && s'.mode == mode
              && s'.jobs == [s.jobs[0].(finished := true)] + JobsFor(mode, UsesOf(w, script)))
  {
    if e == Reply(0) {
      var s1 := Finish(s, 0);
      var uses := UsesOf(w, script);
      assert JobsFor(mode, []) == [];
      assert s1.jobs == [s.jobs[0].(finished := true)] + JobsFor(mode, []);
      UsesAreListed(s1, [s.jobs[0].(finished := true)], [], uses);
      assert [] + uses == uses;
    }
  }
}
