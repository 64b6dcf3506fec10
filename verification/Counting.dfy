/** How many indices of a range satisfy a predicate. */
module Counting {
  ghost function Count(f: int -> bool, lo: int, hi: int): nat
    decreases hi - lo
  {
    if lo >= hi then 0 else Count(f, lo, hi - 1) + if f(hi - 1) then 1 else 0
  }

  lemma {:induction false} CountSame(f: int -> bool, g: int -> bool, lo: int, hi: int)
    requires forall i :: lo <= i < hi ==> f(i) == g(i)
    ensures Count(f, lo, hi) == Count(g, lo, hi)
    decreases hi - lo
  {
    if lo < hi { CountSame(f, g, lo, hi - 1); }
  }

  lemma {:induction false} CountOneMore(f: int -> bool, g: int -> bool, lo: int, hi: int, k: int)
    requires lo <= k < hi && !f(k) && g(k)
    requires forall i :: lo <= i < hi && i != k ==> f(i) == g(i)
    ensures Count(g, lo, hi) == Count(f, lo, hi) + 1
    decreases hi - lo
  {
    if k == hi - 1 { CountSame(f, g, lo, hi - 1); } else { CountOneMore(f, g, lo, hi - 1, k); }
  }

  lemma {:induction false} CountNone(f: int -> bool, lo: int, hi: int)
    requires forall i :: lo <= i < hi ==> !f(i)
    ensures Count(f, lo, hi) == 0
    decreases hi - lo
  {
    if lo < hi { CountNone(f, lo, hi - 1); }
  }

  lemma {:induction false} CountRest(f: int -> bool, lo: int, hi: int, more: int)
    requires lo <= hi <= more && forall i :: hi <= i < more ==> !f(i)
    ensures Count(f, lo, more) == Count(f, lo, hi)
    decreases more - hi
  {
    if hi < more { CountRest(f, lo, hi, more - 1); }
  }

  lemma {:induction false} CountJoins(f: int -> bool, lo: int, mid: int, hi: int)
    requires lo <= mid <= hi
    ensures Count(f, lo, hi) == Count(f, lo, mid) + Count(f, mid, hi)
    decreases hi - mid
  {
    if mid < hi { CountJoins(f, lo, mid, hi - 1); }
  }

  lemma {:induction false} CountOnly(f: int -> bool, lo: int, hi: int, n: int)
    requires lo <= n < hi && f(n) && forall i :: lo <= i < hi && i != n ==> !f(i)
    ensures Count(f, lo, hi) == 1
    decreases hi - lo
  {
    if n == hi - 1 { CountNone(f, lo, n); } else { CountOnly(f, lo, hi - 1, n); }
  }

  lemma {:induction false} CountSome(f: int -> bool, lo: int, hi: int, n: int)
    requires lo <= n < hi && f(n)
    ensures Count(f, lo, hi) >= 1
    decreases hi - lo
  {
    if n < hi - 1 { CountSome(f, lo, hi - 1, n); }
  }

  lemma {:induction false} CountSplits(f: int -> bool, g: int -> bool, h: int -> bool, lo: int, hi: int)
    requires forall i :: lo <= i < hi ==> (f(i) <==> g(i) || h(i)) && !(g(i) && h(i))
    ensures Count(f, lo, hi) == Count(g, lo, hi) + Count(h, lo, hi)
    decreases hi - lo
  {
    if lo < hi { CountSplits(f, g, h, lo, hi - 1); }
  }
}
