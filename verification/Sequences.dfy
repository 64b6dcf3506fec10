/** Facts about joining sequences. */
module Sequences {
  lemma {:induction false} JoinAssociates<T>(a: seq<T>, b: seq<T>, c: seq<T>)
    ensures (a + b) + c == a + (b + c)
  {
  }

  lemma {:induction false} JoinEmpty<T>(a: seq<T>)
    ensures a + [] == a == [] + a
  {
  }

  lemma {:induction false} TakeSnoc<T>(a: seq<T>, n: nat)
    requires 0 < n <= |a|
    ensures a[..n][..n - 1] == a[..n - 1] && a[..n][n - 1] == a[n - 1]
  {
  }
}
