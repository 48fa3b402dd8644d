/** Sums over a sequence, of which one element changes at a time. */
module Sums {

  function Sum<T>(s: seq<T>, f: T -> nat): nat {
    if s == [] then 0 else Sum(s[..|s| - 1], f) + f(s[|s| - 1])
  }

  lemma {:induction false} Update<T>(s: seq<T>, f: T -> nat, i: nat, x: T)
    requires i < |s|
    ensures Sum(s[i := x], f) + f(s[i]) == Sum(s, f) + f(x)
    ensures f(s[i]) <= Sum(s, f)
    decreases s
  {
    var last := |s| - 1;
    if i == last {
      assert s[i := x][..last] == s[..last];
    } else {
      Update(s[..last], f, i, x);
      assert s[i := x][..last] == s[..last][i := x];
    }
  }

  lemma {:induction false} Constant<T>(s: seq<T>, f: T -> nat, c: nat)
    requires forall x :: x in s ==> f(x) == c
    ensures Sum(s, f) == |s| * c
  {
    if s != [] {
      Constant(s[..|s| - 1], f, c);
    }
  }

  lemma {:induction false} Pointwise<S, T>(s: seq<S>, f: S -> nat, t: seq<T>, g: T -> nat)
    requires |s| == |t| && forall i :: 0 <= i < |s| ==> f(s[i]) == g(t[i])
    ensures Sum(s, f) == Sum(t, g)
  {
    if s != [] {
      Pointwise(s[..|s| - 1], f, t[..|t| - 1], g);
    }
  }
}
