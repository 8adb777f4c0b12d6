/** Runs of a deterministic machine, and simulation of one machine by another. */
module Machines {

  /** All calls in order, with their replies. */
  function Run<S, C, R>(step: (S, C) -> (S, R), s: S, calls: seq<C>): (r: (S, seq<R>))
    ensures |r.1| == |calls|
    decreases |calls|
  {
    if calls == [] then (s, [])
    else
      var (s1, reply) := step(s, calls[0]);
      var (s2, replies) := Run(step, s1, calls[1..]);
      (s2, [reply] + replies)
  }

  lemma {:induction false} RunAppend<S, C, R>(step: (S, C) -> (S, R), s: S, a: seq<C>, b: seq<C>)
    ensures Run(step, s, a + b).0 == Run(step, Run(step, s, a).0, b).0
    ensures Run(step, s, a + b).1 == Run(step, s, a).1 + Run(step, Run(step, s, a).0, b).1
    decreases |a|
  {
    if a == [] {
      assert a + b == b;
    } else {
      assert (a + b)[1..] == a[1..] + b;
      RunAppend(step, step(s, a[0]).0, a[1..], b);
    }
  }

  lemma {:induction false} RunOne<S, C, R>(step: (S, C) -> (S, R), s: S, call: C)
    ensures Run(step, s, [call]) == (step(s, call).0, [step(s, call).1])
  {
    assert [call][1..] == [];
    assert [step(s, call).1] + [] == [step(s, call).1];
  }

  lemma {:induction false} RunThree<S, C, R>(step: (S, C) -> (S, R), s: S, x: C, y: C, z: C)
    ensures var (s1, q) := step(s, x); var (s2, r) := step(s1, y); var (s3, t) := step(s2, z);
      Run(step, s, [x, y, z]) == (s3, [q, r, t])
  {
    var (s1, q) := step(s, x);
    var (s2, r) := step(s1, y);
    var (s3, t) := step(s2, z);
    RunOne(step, s2, z);
    RunOne(step, s1, y);
    RunOne(step, s, x);
    RunAppend(step, s1, [y], [z]);
    RunAppend(step, s, [x], [y] + [z]);
    assert [x] + ([y] + [z]) == [x, y, z] && [q] + ([r] + [t]) == [q, r, t];
  }

  /** What every step keeps holds at the end of every run. */
  lemma {:induction false} RunKeeps<S(!new), C(!new), R>(step: (S, C) -> (S, R), inv: S -> bool, s: S, calls: seq<C>)
    requires inv(s)
    requires forall s', call :: inv(s') ==> inv(step(s', call).0)
    ensures inv(Run(step, s, calls).0)
    decreases |calls|
  {
    if calls != [] {
      RunKeeps(step, inv, step(s, calls[0]).0, calls[1..]);
    }
  }

  /** `step` follows `ref`: related states stay related, and the replies are the same unless `skip` says otherwise. */
  ghost predicate Follows<S(!new), T(!new), C(!new), R>(
    step: (S, C) -> (S, R), ref: (T, C) -> (T, R), rel: (S, T) -> bool, skip: C -> bool)
  {
    forall s, t, call :: rel(s, t) ==>
      rel(step(s, call).0, ref(t, call).0) && (skip(call) || step(s, call).1 == ref(t, call).1)
  }

  lemma {:induction false} RunFollows<S(!new), T(!new), C(!new), R>(
      step: (S, C) -> (S, R), ref: (T, C) -> (T, R), rel: (S, T) -> bool, skip: C -> bool,
      s: S, t: T, calls: seq<C>)
    requires rel(s, t) && Follows(step, ref, rel, skip)
    ensures rel(Run(step, s, calls).0, Run(ref, t, calls).0)
    ensures forall i :: 0 <= i < |calls| && !skip(calls[i]) ==> Run(step, s, calls).1[i] == Run(ref, t, calls).1[i]
    decreases |calls|
  {
    if calls != [] {
      RunFollows(step, ref, rel, skip, step(s, calls[0]).0, ref(t, calls[0]).0, calls[1..]);
    }
  }

  /** A call that changes nothing can be put anywhere. */
  lemma {:induction false} IdleCall<T(!new), C(!new), R>(ref: (T, C) -> (T, R), t: T, a: seq<C>, x: C, b: seq<C>)
    requires forall t' :: ref(t', x).0 == t'
    ensures Run(ref, t, a + [x] + b).0 == Run(ref, t, a + b).0
    ensures Run(ref, t, a + [x] + b).1[|a| + 1..] == Run(ref, t, a + b).1[|a|..]
  {
    var mid := Run(ref, t, a).0;
    RunAppend(ref, t, a, b);
    RunAppend(ref, t, a + [x], b);
    RunAppend(ref, t, a, [x]);
    RunOne(ref, mid, x);
  }

  /** A call that the followed machine ignores can be put anywhere: the run ends as before. */
  lemma {:induction false} IgnoredCallEnd<S(!new), T(!new), C(!new), R>(
      step: (S, C) -> (S, R), ref: (T, C) -> (T, R), rel: (S, T) -> bool, skip: C -> bool,
      s: S, t: T, a: seq<C>, x: C, b: seq<C>)
    requires rel(s, t) && Follows(step, ref, rel, skip)
    requires forall t' :: ref(t', x).0 == t'
    ensures rel(Run(step, s, a + b).0, Run(ref, t, a + b).0) && rel(Run(step, s, a + [x] + b).0, Run(ref, t, a + b).0)
  {
    RunFollows(step, ref, rel, skip, s, t, a + b);
    RunFollows(step, ref, rel, skip, s, t, a + [x] + b);
    IdleCall(ref, t, a, x, b);
  }

  /** And the replies after it are as before. */
  lemma {:induction false} IgnoredCall<S(!new), T(!new), C(!new), R>(
      step: (S, C) -> (S, R), ref: (T, C) -> (T, R), rel: (S, T) -> bool, skip: C -> bool,
      s: S, t: T, a: seq<C>, x: C, b: seq<C>, i: nat)
    requires rel(s, t) && Follows(step, ref, rel, skip)
    requires forall t' :: ref(t', x).0 == t'
    requires i < |b| && !skip(b[i])
    ensures Run(step, s, a + [x] + b).1[|a| + 1 + i] == Run(step, s, a + b).1[|a| + i]
  {
    var (calls, calls') := (a + b, a + [x] + b);
    assert calls[|a| + i] == b[i] == calls'[|a| + 1 + i];
    RunFollows(step, ref, rel, skip, s, t, calls);
    RunFollows(step, ref, rel, skip, s, t, calls');
    IdleCall(ref, t, a, x, b);
    assert Run(ref, t, calls').1[|a| + 1..][i] == Run(ref, t, calls).1[|a|..][i];
  }

  /** And every call made on the way is answered as `good` says. */
  lemma {:induction false} RunReplies<S(!new), C(!new), R(!new)>(
      step: (S, C) -> (S, R), inv: S -> bool, good: (C, R) -> bool, s: S, calls: seq<C>)
    requires inv(s)
    requires forall s', call :: inv(s') ==> inv(step(s', call).0) && good(call, step(s', call).1)
    ensures inv(Run(step, s, calls).0)
    ensures forall i :: 0 <= i < |calls| ==> good(calls[i], Run(step, s, calls).1[i])
    decreases |calls|
  {
    if calls != [] {
      RunReplies(step, inv, good, step(s, calls[0]).0, calls[1..]);
    }
  }

  /** How many calls of a run, with their replies, `p` holds of. */
  function Count<C, R>(calls: seq<C>, replies: seq<R>, p: (C, R) -> bool): (n: nat)
    requires |calls| == |replies|
  {
    if calls == [] then 0
    else (if p(calls[0], replies[0]) then 1 else 0) + Count(calls[1..], replies[1..], p)
  }

  /** No step spends more than there is: `credit` only grows by what is earned and pays for what is spent. */
  ghost predicate Pays<S(!new), C(!new), R(!new)>(
    step: (S, C) -> (S, R), inv: S -> bool, credit: S -> nat, earns: (C, R) -> bool, spends: (C, R) -> bool)
  {
    forall s, call :: inv(s) ==>
      var (s', reply) := step(s, call);
      && inv(s')
      && credit(s') + (if spends(call, reply) then 1 else 0) <= credit(s) + (if earns(call, reply) then 1 else 0)
  }

  lemma {:induction false} RunPays<S(!new), C(!new), R(!new)>(
      step: (S, C) -> (S, R), inv: S -> bool, credit: S -> nat, earns: (C, R) -> bool, spends: (C, R) -> bool,
      s: S, calls: seq<C>)
    requires inv(s) && Pays(step, inv, credit, earns, spends)
    ensures var (end, replies) := Run(step, s, calls);
      credit(end) + Count(calls, replies, spends) <= credit(s) + Count(calls, replies, earns)
    decreases |calls|
  {
    if calls != [] {
      var (s1, reply) := step(s, calls[0]);
      RunPays(step, inv, credit, earns, spends, s1, calls[1..]);
      assert Run(step, s, calls).1[1..] == Run(step, s1, calls[1..]).1;
    }
  }
}
