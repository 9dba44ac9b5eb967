/**
  Runs of a step function. Every protocol of this project is a deterministic
  function from a state and a labelled action to the next state, or None where
  the action is not enabled. All nondeterminism (scheduling, select choices,
  timers, callers) is in the choice of the labels, so a statement about every
  sequence of labels is a statement about every run.
 */
module Runs {
  import opened Options

  function Exec<S, A>(step: (S, A) -> Option<S>, s: S, run: seq<A>): Option<S> {
    if run == [] then Some(s)
    else match step(s, run[0])
      case None => None
      case Some(t) => Exec(step, t, run[1..])
  }

  /** Some run leads from s to t. */
  ghost predicate Reaches<S(!new), A(!new)>(step: (S, A) -> Option<S>, s: S, t: S) {
    exists run: seq<A> :: Exec(step, s, run) == Some(t)
  }

  /** inv is kept by every enabled action. */
  ghost predicate Inductive<S(!new), A(!new)>(step: (S, A) -> Option<S>, inv: S -> bool) {
    forall s, a :: inv(s) && step(s, a).Some? ==> inv(step(s, a).value)
  }

  /** An inductive predicate that holds at the start holds at the end of every run. */
  lemma {:induction false} InductiveHolds<S(!new), A(!new)>(step: (S, A) -> Option<S>, inv: S -> bool, s: S, run: seq<A>)
    requires Inductive(step, inv) && inv(s)
    ensures Exec(step, s, run).Some? ==> inv(Exec(step, s, run).value)
    decreases |run|
  {
    if run != [] && step(s, run[0]).Some? {
      InductiveHolds(step, inv, step(s, run[0]).value, run[1..]);
    }
  }

  lemma {:induction false} ExecConcat<S, A>(step: (S, A) -> Option<S>, s: S, r1: seq<A>, r2: seq<A>)
    requires Exec(step, s, r1).Some?
    ensures Exec(step, s, r1 + r2) == Exec(step, Exec(step, s, r1).value, r2)
    decreases |r1|
  {
    if r1 == [] {
      assert r1 + r2 == r2;
    } else {
      assert (r1 + r2)[0] == r1[0] && (r1 + r2)[1..] == r1[1..] + r2;
      ExecConcat(step, step(s, r1[0]).value, r1[1..], r2);
    }
  }

  /** The state after one more action of a given sequence. */
  lemma ExecNext<S, A>(step: (S, A) -> Option<S>, s: S, run: seq<A>, k: nat)
    requires k < |run| && Exec(step, s, run[..k]).Some?
    ensures Exec(step, s, run[..k + 1]) == step(Exec(step, s, run[..k]).value, run[k])
  {
    var t := Exec(step, s, run[..k]).value;
    ExecConcat(step, s, run[..k], [run[k]]);
    assert run[..k + 1] == run[..k] + [run[k]];
    match step(t, run[k])
    case None =>
    case Some(u) => assert Exec(step, u, [run[k]][1..]) == Some(u);
  }

  lemma ReachesRefl<S(!new), A(!new)>(step: (S, A) -> Option<S>, s: S)
    ensures Reaches(step, s, s)
  {
    var none: seq<A> := [];
    assert Exec(step, s, none) == Some(s);
  }

  /** A run can be extended by one enabled action. */
  lemma ReachesStep<S(!new), A(!new)>(step: (S, A) -> Option<S>, s: S, t: S, a: A)
    requires Reaches(step, s, t) && step(t, a).Some?
    ensures Reaches(step, s, step(t, a).value)
  {
    var run: seq<A> :| Exec(step, s, run) == Some(t);
    ExecConcat(step, s, run, [a]);
    assert Exec(step, t, [a]) == step(t, a);
    assert Exec(step, s, run + [a]) == step(t, a);
  }

  lemma ReachesTrans<S(!new), A(!new)>(step: (S, A) -> Option<S>, s: S, t: S, u: S)
    requires Reaches(step, s, t) && Reaches(step, t, u)
    ensures Reaches(step, s, u)
  {
    var r1: seq<A> :| Exec(step, s, r1) == Some(t);
    var r2: seq<A> :| Exec(step, t, r2) == Some(u);
    ExecConcat(step, s, r1, r2);
    assert Exec(step, s, r1 + r2) == Some(u);
  }

  /** A run is extended by one enabled action. */
  lemma Do<S(!new), A(!new)>(step: (S, A) -> Option<S>, s0: S, s: S, a: A) returns (t: S)
    requires Reaches(step, s0, s) && step(s, a).Some?
    ensures t == step(s, a).value && Reaches(step, s0, t)
  {
    t := step(s, a).value;
    ReachesStep(step, s0, s, a);
  }

  lemma ReachesInductive<S(!new), A(!new)>(step: (S, A) -> Option<S>, inv: S -> bool, s: S, t: S)
    requires Inductive(step, inv) && inv(s) && Reaches(step, s, t)
    ensures inv(t)
  {
    var run: seq<A> :| Exec(step, s, run) == Some(t);
    InductiveHolds(step, inv, s, run);
  }

  // ---- a state and the run that led to it ----

  /** law is kept by every enabled action, which makes the history one longer. */
  ghost predicate Historical<S(!new), A(!new)>(step: (S, A) -> Option<S>, law: (seq<A>, S) -> bool) {
    forall h, s, a :: law(h, s) && step(s, a).Some? ==> law(h + [a], step(s, a).value)
  }

  lemma {:induction false} HistoryFrom<S(!new), A(!new)>(step: (S, A) -> Option<S>, law: (seq<A>, S) -> bool,
      h: seq<A>, s: S, run: seq<A>)
    requires Historical(step, law) && law(h, s)
    ensures Exec(step, s, run).Some? ==> law(h + run, Exec(step, s, run).value)
    decreases |run|
  {
    if run == [] {
      assert h + run == h;
    } else if step(s, run[0]).Some? {
      HistoryFrom(step, law, h + [run[0]], step(s, run[0]).value, run[1..]);
      assert h + [run[0]] + run[1..] == h + run;
    }
  }

  /** A law between histories and states holds of every run and the state it leads to. */
  lemma HistoryHolds<S(!new), A(!new)>(step: (S, A) -> Option<S>, law: (seq<A>, S) -> bool, s: S, run: seq<A>, t: S)
    requires Historical(step, law) && law([], s) && Exec(step, s, run) == Some(t)
    ensures law(run, t)
  {
    HistoryFrom(step, law, [], s, run);
    assert [] + run == run;
  }

  // ---- one machine inside another ----

  /** If every inner step is an outer step on a larger state, then inner runs are outer runs. */
  lemma {:induction false} LiftRun<S, A, T, B>(inner: (S, A) -> Option<S>, outer: (T, B) -> Option<T>,
      put: S -> T, act: A -> B, s: S, run: seq<A>) returns (lifted: seq<B>)
    requires forall x, a :: inner(x, a).Some? ==> outer(put(x), act(a)) == Some(put(inner(x, a).value))
    requires Exec(inner, s, run).Some?
    ensures Exec(outer, put(s), lifted) == Some(put(Exec(inner, s, run).value))
    decreases |run|
  {
    lifted := [];
    if run != [] {
      var rest := LiftRun(inner, outer, put, act, inner(s, run[0]).value, run[1..]);
      lifted := [act(run[0])] + rest;
      assert lifted[1..] == rest;
    }
  }

  lemma Lift<S(!new), A(!new), T(!new), B(!new)>(inner: (S, A) -> Option<S>, outer: (T, B) -> Option<T>,
      put: S -> T, act: A -> B, s: S, t: S)
    requires forall x, a :: inner(x, a).Some? ==> outer(put(x), act(a)) == Some(put(inner(x, a).value))
    requires Reaches(inner, s, t)
    ensures Reaches(outer, put(s), put(t))
  {
    var run: seq<A> :| Exec(inner, s, run) == Some(t);
    var lifted := LiftRun(inner, outer, put, act, s, run);
  }

  /** The actions of an outer run as they are seen from inside. */
  function Translate<A, B>(act: B -> seq<A>, run: seq<B>): seq<A> {
    if run == [] then [] else act(run[0]) + Translate(act, run[1..])
  }

  lemma {:induction false} TranslateMember<A, B>(act: B -> seq<A>, run: seq<B>, a: A)
    ensures a in Translate(act, run) <==> exists i :: 0 <= i < |run| && a in act(run[i])
  {
    if run != [] {
      TranslateMember(act, run[1..], a);
      assert forall i :: 1 <= i < |run| ==> run[i] == run[1..][i - 1];
      assert forall i :: 0 <= i < |run| - 1 ==> run[1..][i] == run[i + 1];
    }
  }

  /** If every outer step is a run of the inner state, then outer runs are inner runs. */
  lemma {:induction false} Project<S, A, T, B>(inner: (S, A) -> Option<S>, outer: (T, B) -> Option<T>,
      get: T -> S, act: B -> seq<A>, s: T, run: seq<B>, t: T)
    requires forall x, b :: outer(x, b).Some? ==> Exec(inner, get(x), act(b)) == Some(get(outer(x, b).value))
    requires Exec(outer, s, run) == Some(t)
    ensures Exec(inner, get(s), Translate(act, run)) == Some(get(t))
    decreases |run|
  {
    if run != [] {
      var u := outer(s, run[0]).value;
      Project(inner, outer, get, act, u, run[1..], t);
      ExecConcat(inner, get(s), act(run[0]), Translate(act, run[1..]));
    }
  }
}
