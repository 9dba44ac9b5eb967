/** Weighted sums over sequences: how many goroutines of a kind there are, and how much is left to do. */
module Sums {
  function Sum<T>(f: T -> nat, s: seq<T>): nat {
    if s == [] then 0 else Sum(f, s[..|s| - 1]) + f(s[|s| - 1])
  }

  lemma SumAppend<T>(f: T -> nat, s: seq<T>, x: T)
    ensures Sum(f, s + [x]) == Sum(f, s) + f(x)
  {
    assert (s + [x])[..|s|] == s;
  }

  lemma {:induction false} SumConcat<T>(f: T -> nat, a: seq<T>, b: seq<T>)
    ensures Sum(f, a + b) == Sum(f, a) + Sum(f, b)
  {
    if b == [] {
      assert a + b == a;
    } else {
      assert (a + b)[..|a + b| - 1] == a + b[..|b| - 1];
      SumConcat(f, a, b[..|b| - 1]);
    }
  }

  lemma SumFew<T>(f: T -> nat, s: seq<T>)
    requires |s| <= 4
    ensures Sum(f, s) == (if |s| > 0 then f(s[0]) else 0) + (if |s| > 1 then f(s[1]) else 0)
                         + (if |s| > 2 then f(s[2]) else 0) + (if |s| > 3 then f(s[3]) else 0)
  {
    if |s| > 0 { SumAppend(f, s[..|s| - 1], s[|s| - 1]); assert s[..|s| - 1] + [s[|s| - 1]] == s; }
    if |s| > 1 { assert s[..|s| - 1][..|s| - 2] == s[..|s| - 2]; }
    if |s| > 2 { assert s[..|s| - 2][..|s| - 3] == s[..|s| - 3]; }
    if |s| > 3 { assert s[..|s| - 3][..|s| - 4] == s[..|s| - 4]; }
  }

  lemma {:induction false} SumUpdate<T>(f: T -> nat, s: seq<T>, i: nat, x: T)
    requires i < |s|
    ensures Sum(f, s[i := x]) == Sum(f, s) - f(s[i]) + f(x)
  {
    var n := |s| - 1;
    if i == n {
      assert s[i := x][..n] == s[..n];
    } else {
      SumUpdate(f, s[..n], i, x);
      assert s[i := x][..n] == s[..n][i := x];
    }
  }

  /** One element weighs at most as much as all. */
  lemma {:induction false} SumMember<T>(f: T -> nat, s: seq<T>, i: nat)
    requires i < |s|
    ensures f(s[i]) <= Sum(f, s)
  {
    var n := |s| - 1;
    if i < n {
      SumMember(f, s[..n], i);
    }
  }

  lemma {:induction false} SumZero<T>(f: T -> nat, s: seq<T>)
    ensures Sum(f, s) == 0 <==> forall i :: 0 <= i < |s| ==> f(s[i]) == 0
  {
    if s != [] {
      var n := |s| - 1;
      SumZero(f, s[..n]);
      assert forall i :: 0 <= i < n ==> s[..n][i] == s[i];
      if Sum(f, s) != 0 && f(s[n]) == 0 {
        var i :| 0 <= i < n && f(s[..n][i]) != 0;
        assert f(s[i]) != 0;
      }
    }
  }

  lemma {:induction false} SumMonotone<T>(f: T -> nat, g: T -> nat, s: seq<T>)
    requires forall i :: 0 <= i < |s| ==> f(s[i]) <= g(s[i])
    ensures Sum(f, s) <= Sum(g, s)
  {
    if s != [] {
      var n := |s| - 1;
      assert forall i :: 0 <= i < n ==> s[..n][i] == s[i];
      SumMonotone(f, g, s[..n]);
    }
  }

  /** A weight of at most k per element. */
  lemma {:induction false} SumAtMost<T>(f: T -> nat, s: seq<T>, k: nat)
    requires forall i :: 0 <= i < |s| ==> f(s[i]) <= k
    ensures Sum(f, s) <= k * |s|
  {
    if s != [] {
      var n := |s| - 1;
      assert forall i :: 0 <= i < n ==> s[..n][i] == s[i];
      SumAtMost(f, s[..n], k);
    }
  }

  lemma {:induction false} SumConstant<T>(f: T -> nat, s: seq<T>, k: nat)
    requires forall i :: 0 <= i < |s| ==> f(s[i]) == k
    ensures Sum(f, s) == k * |s|
  {
    if s != [] {
      var n := |s| - 1;
      assert forall i :: 0 <= i < n ==> s[..n][i] == s[i];
      SumConstant(f, s[..n], k);
    }
  }
}
