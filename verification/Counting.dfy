/** How many elements of a sequence meet a condition, and what their measures add up to. */
module Counting {

  function CountIf<T>(s: seq<T>, f: T -> bool): nat {
    if s == [] then 0 else (if f(s[0]) then 1 else 0) + CountIf(s[1..], f)
  }

  lemma {:induction false} CountUpdate<T>(s: seq<T>, f: T -> bool, i: nat, x: T)
    requires i < |s|
    ensures CountIf(s[i := x], f) == CountIf(s, f) - (if f(s[i]) then 1 else 0) + (if f(x) then 1 else 0)
  {
    if i > 0 {
      CountUpdate(s[1..], f, i - 1, x);
      assert s[i := x][1..] == s[1..][i - 1 := x];
    } else {
      assert s[i := x][1..] == s[1..];
    }
  }

  lemma {:induction false} CountZero<T>(s: seq<T>, f: T -> bool)
    ensures CountIf(s, f) == 0 <==> forall i :: 0 <= i < |s| ==> !f(s[i])
  {
    if s != [] {
      CountZero(s[1..], f);
      if CountIf(s, f) == 0 {
        forall i | 0 <= i < |s|
          ensures !f(s[i])
        {
          assert i > 0 ==> s[i] == s[1..][i - 1];
        }
      }
    }
  }

  function Sum<T>(s: seq<T>, f: T -> nat): nat {
    if s == [] then 0 else f(s[0]) + Sum(s[1..], f)
  }

  lemma {:induction false} SumUpdate<T>(s: seq<T>, f: T -> nat, i: nat, x: T)
    requires i < |s|
    ensures Sum(s[i := x], f) == Sum(s, f) - f(s[i]) + f(x)
  {
    if i > 0 {
      SumUpdate(s[1..], f, i - 1, x);
      assert s[i := x][1..] == s[1..][i - 1 := x];
    } else {
      assert s[i := x][1..] == s[1..];
    }
  }

  lemma {:induction false} SumAtMost<T>(s: seq<T>, f: T -> nat, most: nat)
    requires forall x :: f(x) <= most
    ensures Sum(s, f) <= most * |s|
  {
    if s != [] {
      SumAtMost(s[1..], f, most);
      assert most * |s| == most * |s[1..]| + most;
    }
  }
}
