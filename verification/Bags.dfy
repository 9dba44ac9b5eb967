/** What a sequence of goroutines holds in hand, as a multiset. */
module Bags {
  function Bag<T, X>(f: T -> multiset<X>, s: seq<T>): multiset<X> {
    if s == [] then multiset{} else Bag(f, s[..|s| - 1]) + f(s[|s| - 1])
  }

  lemma Swap<X>(a: multiset<X>, b: multiset<X>, c: multiset<X>)
    ensures a + b + c == a + c + b
  {
  }

  /** Replacing an element swaps what it held. */
  lemma {:induction false} BagUpdate<T, X>(f: T -> multiset<X>, s: seq<T>, i: nat, x: T)
    requires i < |s|
    ensures Bag(f, s[i := x]) + f(s[i]) == Bag(f, s) + f(x)
  {
    var n := |s| - 1;
    if i == n {
      assert s[i := x][..n] == s[..n];
    } else {
      BagUpdate(f, s[..n], i, x);
      assert s[i := x][..n] == s[..n][i := x];
      assert Bag(f, s[i := x]) == Bag(f, s[..n][i := x]) + f(s[n]);
      Swap(Bag(f, s[..n][i := x]), f(s[n]), f(s[i]));
      Swap(Bag(f, s[..n]), f(s[n]), f(x));
    }
  }

  /** A goroutine with empty hands picks something up. */
  lemma BagGain<T, X>(f: T -> multiset<X>, s: seq<T>, i: nat, x: T)
    requires i < |s| && f(s[i]) == multiset{}
    ensures Bag(f, s[i := x]) == Bag(f, s) + f(x)
  {
    BagUpdate(f, s, i, x);
  }

  /** A goroutine puts down what it held. */
  lemma BagLose<T, X>(f: T -> multiset<X>, s: seq<T>, i: nat, x: T)
    requires i < |s| && f(x) == multiset{}
    ensures Bag(f, s) == Bag(f, s[i := x]) + f(s[i])
  {
    BagUpdate(f, s, i, x);
  }

  /** A goroutine moves with the same thing in hand. */
  lemma {:induction false} BagKeep<T, X>(f: T -> multiset<X>, s: seq<T>, i: nat, x: T)
    requires i < |s| && f(x) == f(s[i])
    ensures Bag(f, s[i := x]) == Bag(f, s)
  {
    var n := |s| - 1;
    if i == n {
      assert s[i := x][..n] == s[..n];
    } else {
      BagKeep(f, s[..n], i, x);
      assert s[i := x][..n] == s[..n][i := x];
    }
  }

  lemma {:induction false} BagEmpty<T, X>(f: T -> multiset<X>, s: seq<T>)
    requires forall i :: 0 <= i < |s| ==> f(s[i]) == multiset{}
    ensures Bag(f, s) == multiset{}
  {
    if s != [] {
      var n := |s| - 1;
      assert forall i :: 0 <= i < n ==> s[..n][i] == s[i];
      BagEmpty(f, s[..n]);
    }
  }

  lemma {:induction false} BagMember<T, X>(f: T -> multiset<X>, s: seq<T>, i: nat)
    requires i < |s|
    ensures f(s[i]) <= Bag(f, s)
  {
    var n := |s| - 1;
    if i < n {
      BagMember(f, s[..n], i);
    }
  }

  /** At most one in each hand. */
  lemma {:induction false} BagSize<T, X>(f: T -> multiset<X>, s: seq<T>)
    requires forall i :: 0 <= i < |s| ==> |f(s[i])| <= 1
    ensures |Bag(f, s)| <= |s|
  {
    if s != [] {
      var n := |s| - 1;
      assert forall i :: 0 <= i < n ==> s[..n][i] == s[i];
      BagSize(f, s[..n]);
    }
  }

  // ---- conservation: everything taken is in somebody's hand, or gone ----

  ghost predicate Accounted<T, X>(hand: T -> multiset<X>, taken: seq<X>, gone: multiset<X>, ws: seq<T>) {
    multiset(taken) == gone + Bag(hand, ws)
  }

  lemma PickUp<T, X>(hand: T -> multiset<X>, taken: seq<X>, gone: multiset<X>, ws: seq<T>, j: nat, w: T, x: X)
    requires Accounted(hand, taken, gone, ws) && j < |ws| && hand(ws[j]) == multiset{} && hand(w) == multiset{x}
    ensures Accounted(hand, taken + [x], gone, ws[j := w])
  {
    BagGain(hand, ws, j, w);
  }

  lemma PutDown<T, X>(hand: T -> multiset<X>, taken: seq<X>, gone: multiset<X>, ws: seq<T>, j: nat, w: T)
    requires Accounted(hand, taken, gone, ws) && j < |ws| && hand(w) == multiset{}
    ensures Accounted(hand, taken, gone + hand(ws[j]), ws[j := w])
  {
    BagLose(hand, ws, j, w);
  }

  lemma Carry<T, X>(hand: T -> multiset<X>, taken: seq<X>, gone: multiset<X>, ws: seq<T>, j: nat, w: T)
    requires Accounted(hand, taken, gone, ws) && j < |ws| && hand(w) == hand(ws[j])
    ensures Accounted(hand, taken, gone, ws[j := w])
  {
    BagKeep(hand, ws, j, w);
  }

  lemma Join<T, X>(hand: T -> multiset<X>, taken: seq<X>, gone: multiset<X>, ws: seq<T>, w: T)
    requires Accounted(hand, taken, gone, ws) && hand(w) == multiset{}
    ensures Accounted(hand, taken, gone, ws + [w])
  {
  }
}
