/** Sums of the outputs at a set of indices. */
module KeySums {

  predicate Indices(outs: seq<nat>, keys: set<nat>) { forall i :: i in keys ==> 0 <= i < |outs| }

  /** The value of the outputs whose index is in `keys`. */
  ghost function KeySum(outs: seq<nat>, keys: set<nat>): nat
    requires Indices(outs, keys)
  {
    if keys == {} then 0
    else
      var i :| i in keys;
      outs[i] + KeySum(outs, keys - {i})
  }

  lemma {:induction false} KeySumRemove(outs: seq<nat>, keys: set<nat>, k: nat)
    requires Indices(outs, keys) && k in keys
    ensures KeySum(outs, keys) == outs[k] + KeySum(outs, keys - {k})
    decreases keys
  {
    var i :| i in keys && KeySum(outs, keys) == outs[i] + KeySum(outs, keys - {i});
    if i != k {
      KeySumRemove(outs, keys - {i}, k);
      KeySumRemove(outs, keys - {k}, i);
      assert keys - {i} - {k} == keys - {k} - {i};
    }
  }

  /** Adding up the outputs whose key is selected, one key at a time in any order. */
  method AddUp(outs: seq<nat>, keys: set<nat>, selected: set<nat>) returns (sum: nat)
    requires selected <= keys && Indices(outs, selected)
    ensures sum == KeySum(outs, selected)
  {
    sum := 0;
    var todo := keys;
    assert keys * selected == selected;
    while todo != {}
      invariant Indices(outs, todo * selected)
      invariant sum + KeySum(outs, todo * selected) == KeySum(outs, selected)
      decreases todo
    {
      var i :| i in todo;
      if i in selected {
        KeySumRemove(outs, todo * selected, i);
        sum := sum + outs[i];
        assert (todo - {i}) * selected == todo * selected - {i};
      } else {
        assert (todo - {i}) * selected == todo * selected;
      }
      todo := todo - {i};
    }
  }
}
