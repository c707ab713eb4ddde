/** Runs one task per target at a time, and several targets at once
    (blob-gen/multilang-llm-agent/eval/run_parallel.py:334-408). */
module Scheduler {
  import opened SetChoice
  import opened Regrouping

  datatype Target = Target(name: string)

  datatype Param = Param(target: Target, harness: string)

  datatype Task = Task(target: Target, params: Param)

  /** What asking a task gives: not ready, or ready with or without an exception. */
  datatype Outcome = Pending | Success | Failure

  type Poll = Target -> Outcome

  /** The parameters of one target, in order. */
  function Of(ps: seq<Param>, t: Target): seq<Param> {
    if ps == [] then []
    else Of(ps[..|ps| - 1], t) + if ps[|ps| - 1].target == t then [ps[|ps| - 1]] else []
  }

  /* Grouping */

  method GroupParamsByTarget(all: seq<Param>) returns (groups: map<Target, seq<Param>>, order: seq<Target>)
    ensures Grouped(all, groups, order)
  {
    groups, order := map[], [];
    for i := 0 to |all|
      invariant Grouped(all[..i], groups, order)
    {
      var target := all[i].target;
      assert all[..i + 1][..i] == all[..i];
      if target !in groups {
        groups := groups[target := []];
        order := order + [target];
      }
      groups := groups[target := groups[target] + [all[i]]];
    }
    assert all[..|all|] == all;
  }

  /** Each target with its parameters, and the targets once each. */
  ghost predicate Grouped(all: seq<Param>, groups: map<Target, seq<Param>>, order: seq<Target>) {
    && (forall t {:trigger t in groups} :: if t in groups then groups[t] == Of(all, t) != [] else Of(all, t) == [])
    && Distinct(order) && (forall t :: t in order <==> t in groups)
  }

  ghost predicate Distinct<T>(xs: seq<T>) {
    forall i, j | 0 <= i < j < |xs| :: xs[i] != xs[j]
  }

  /* States and steps */

  datatype State = State(
    groups: map<Target, seq<Param>>,
    available: seq<Target>,
    index: nat,
    active: seq<Task>,
    done: seq<Param>)         // for the proofs: what has completed, in order

  predicate IsActive(active: seq<Task>, t: Target) {
    exists i | 0 <= i < |active| :: active[i].target == t
  }

  /** Takes out the first `x`. */
  function Without<T(==)>(xs: seq<T>, x: T): seq<T> {
    if xs == [] then [] else if xs[0] == x then xs[1..] else [xs[0]] + Without(xs[1..], x)
  }

  /** Everything that never changes over a run. */
  ghost predicate Safe(all: seq<Param>, max: nat, s: State) {
    && (forall t :: t in s.available <==> t in s.groups) && Distinct(s.available)
    && (forall t | t in s.groups :: s.groups[t] != [])
    && (s.available != [] ==> s.index < |s.available|)
    && |s.active| <= max && OnePerTarget(s.active)
    && (forall i | 0 <= i < |s.active| :: s.active[i].target in s.groups && s.active[i].params == s.groups[s.active[i].target][0])
    && forall t {:trigger Of(s.done, t)} :: Of(s.done, t) + Left(s, t) == Of(all, t)
  }

  ghost predicate OnePerTarget(active: seq<Task>) {
    forall i, j | 0 <= i < j < |active| :: active[i].target != active[j].target
  }

  function Left(s: State, t: Target): seq<Param> {
    if t in s.groups then s.groups[t] else []
  }

  function Initial(groups: map<Target, seq<Param>>, order: seq<Target>): State {
    State(groups, order, 0, [], [])
  }

  function Started(max: nat, s: State): State
    requires s.available != [] ==> s.index < |s.available| && s.available[s.index] in s.groups && s.groups[s.available[s.index]] != []
  {
    if |s.active| < max && s.available != [] then
      var t := s.available[s.index];
      var next := s.(index := (s.index + 1) % |s.available|);
      if IsActive(s.active, t) then next else next.(active := s.active + [Task(t, s.groups[t][0])])
    else s
  }

  function Completed(s: State, i: nat, ok: bool): State
    requires i < |s.active| && s.active[i].target in s.groups && s.groups[s.active[i].target] != []
  {
    var task := s.active[i];
    var rest := s.active[..i] + s.active[i + 1..];
    if !ok then s.(active := rest)
    else
      var group := s.groups[task.target][1..];
      var done := s.done + [task.params];
      if group == [] then
        var available := Without(s.available, task.target);
        State(s.groups - {task.target}, available, if available != [] then s.index % |available| else s.index, rest, done)
      else State(s.groups[task.target := group], s.available, s.index, rest, done)
  }

  /* Steps are safe */

  lemma {:induction false} WithoutOf<T>(xs: seq<T>, x: T)
    requires Distinct(xs)
    ensures Distinct(Without(xs, x)) && forall y :: y in Without(xs, x) <==> y in xs && y != x
  {
    if xs != [] {
      assert xs == [xs[0]] + xs[1..];
      if xs[0] == x {
        assert forall i | 0 <= i < |xs[1..]| :: xs[1..][i] == xs[i + 1] != x;
      } else {
        WithoutOf(xs[1..], x);
        var rest := Without(xs[1..], x);
        forall j | 0 <= j < |rest|
          ensures rest[j] != xs[0]
        {
          assert rest[j] in rest;
        }
        assert forall y | y != xs[0] :: y in xs <==> y in xs[1..];
      }
    }
  }

  lemma {:induction false} InitiallySafe(all: seq<Param>, max: nat, groups: map<Target, seq<Param>>, order: seq<Target>)
    requires Grouped(all, groups, order)
    ensures Safe(all, max, Initial(groups, order))
  {
    var s := Initial(groups, order);
    forall t
      ensures Of(s.done, t) + Left(s, t) == Of(all, t)
    {
      NothingDoneYet(all, groups, order, t);
    }
    if order != [] { assert order[0] in groups; }
  }

  lemma {:induction false} NothingDoneYet(all: seq<Param>, groups: map<Target, seq<Param>>, order: seq<Target>, t: Target)
    requires Grouped(all, groups, order)
    ensures Of([], t) + Left(Initial(groups, order), t) == Of(all, t)
  {
    assert if t in groups then groups[t] == Of(all, t) else Of(all, t) == [];
  }

  /** Starting keeps a run safe, and an idle scheduler with work left does start a task. */
  lemma {:induction false} StartIsSafe(all: seq<Param>, max: nat, s: State)
    requires Safe(all, max, s)
    ensures s.available != [] ==> s.available[s.index] in s.groups && s.groups[s.available[s.index]] != []
    ensures Safe(all, max, Started(max, s))
    ensures Started(max, s).groups == s.groups && Started(max, s).done == s.done
    ensures s.active <= Started(max, s).active && |Started(max, s).active| <= |s.active| + 1
    ensures max > 0 && s.groups != map[] && s.active == [] ==> |Started(max, s).active| == 1
  {
    if s.groups != map[] {
      var t := AnElement(s.groups.Keys);
      assert t in s.available;
    }
    if s.available != [] {
      assert s.available[s.index] in s.available;
    }
    var s' := Started(max, s);
    forall t
      ensures Of(s'.done, t) + Left(s', t) == Of(all, t)
    {
    }
  }

  lemma {:induction false} OfSnoc(ps: seq<Param>, p: Param, t: Target)
    ensures Of(ps + [p], t) == Of(ps, t) + if p.target == t then [p] else []
  {
    assert (ps + [p])[..|ps|] == ps;
  }

  /** Dropping a task keeps what is said of the others. */
  lemma {:induction false} OthersStay(active: seq<Task>, i: nat)
    requires i < |active| && OnePerTarget(active)
    ensures OnePerTarget(active[..i] + active[i + 1..])
    ensures forall task | task in active[..i] + active[i + 1..] :: task in active && task.target != active[i].target
  {
    var rest := active[..i] + active[i + 1..];
    forall j | 0 <= j < |rest|
      ensures rest[j] == active[if j < i then j else j + 1]
    {
    }
  }

  /** Completing keeps a run safe; only a success takes its parameters off the list. */
  lemma {:induction false} CompletionIsSafe(all: seq<Param>, max: nat, s: State, i: nat, ok: bool)
    requires Safe(all, max, s) && i < |s.active|
    ensures Safe(all, max, Completed(s, i, ok))
  {
    OthersStay(s.active, i);
    assert forall j | 0 <= j < |Completed(s, i, ok).active| :: Completed(s, i, ok).active[j] in s.active;
    if ok {
      WithoutOf(s.available, s.active[i].target);
      HistoryGrows(all, s, i);
      SuccessIsSafe(all, max, s, i);
    }
  }

  lemma {:induction false} SuccessIsSafe(all: seq<Param>, max: nat, s: State, i: nat)
    requires Safe(all, max, s) && i < |s.active|
    requires var rest := s.active[..i] + s.active[i + 1..];
             OnePerTarget(rest) && forall task | task in rest :: task in s.active && task.target != s.active[i].target
    requires var available := Without(s.available, s.active[i].target);
             Distinct(available) && forall t :: t in available <==> t in s.available && t != s.active[i].target
    requires var s' := Completed(s, i, true); forall t {:trigger Of(s'.done, t)} :: Of(s'.done, t) + Left(s', t) == Of(all, t)
    ensures Safe(all, max, Completed(s, i, true))
  {
    var s' := Completed(s, i, true);
    forall j | 0 <= j < |s'.active|
      ensures s'.active[j].target in s'.groups && s'.active[j].params == s'.groups[s'.active[j].target][0]
    {
      assert s'.active[j] in s'.active;
      var k :| 0 <= k < |s.active| && s.active[k] == s'.active[j];
    }
  }

  lemma {:induction false} HistoryGrows(all: seq<Param>, s: State, i: nat)
    requires i < |s.active| && s.active[i].target in s.groups && s.groups[s.active[i].target] != []
    requires s.active[i].params == s.groups[s.active[i].target][0]
    requires forall t {:trigger Of(s.done, t)} :: Of(s.done, t) + Left(s, t) == Of(all, t)
    ensures var s' := Completed(s, i, true); forall t {:trigger Of(s'.done, t)} :: Of(s'.done, t) + Left(s', t) == Of(all, t)
  {
    forall t
      ensures var s' := Completed(s, i, true); Of(s'.done, t) + Left(s', t) == Of(all, t)
    {
      HistoryOf(all, s, i, t);
    }
  }

  lemma {:induction false} HistoryOf(all: seq<Param>, s: State, i: nat, t: Target)
    requires i < |s.active| && s.active[i].target in s.groups && s.groups[s.active[i].target] != []
    requires s.active[i].params == s.groups[s.active[i].target][0]
    requires forall u {:trigger Of(s.done, u)} :: Of(s.done, u) + Left(s, u) == Of(all, u)
    ensures var s' := Completed(s, i, true); Of(s'.done, t) + Left(s', t) == Of(all, t)
  {
    assert Of(s.done, s.active[i].target) + Left(s, s.active[i].target) == Of(all, s.active[i].target);
    ParamOfTarget(all, s, s.active[i].target);
    OfSnoc(s.done, s.active[i].params, t);
    LeftAfter(s, i, t);
    assert Of(s.done, t) + Left(s, t) == Of(all, t);
    if t == s.active[i].target {
      Associative(Of(s.done, t), [s.active[i].params], Left(Completed(s, i, true), t));
    } else {
      assert Of(s.done, t) + [] == Of(s.done, t);
    }
  }

  lemma {:induction false} LeftAfter(s: State, i: nat, t: Target)
    requires i < |s.active| && s.active[i].target in s.groups && s.groups[s.active[i].target] != []
    requires s.active[i].params == s.groups[s.active[i].target][0]
    ensures Left(s, t) == (if t == s.active[i].target then [s.active[i].params] else []) + Left(Completed(s, i, true), t)
  {
    if t == s.active[i].target { assert s.groups[t] == [s.groups[t][0]] + s.groups[t][1..]; }
  }

  /** What a target's group holds belongs to the target. */
  lemma {:induction false} ParamOfTarget(all: seq<Param>, s: State, t: Target)
    requires t in s.groups && s.groups[t] != [] && Of(s.done, t) + Left(s, t) == Of(all, t)
    ensures s.groups[t][0].target == t
  {
    OfHolds(all, t);
    assert (Of(s.done, t) + Left(s, t))[|Of(s.done, t)|] == s.groups[t][0];
  }

  lemma {:induction false} OfHolds(ps: seq<Param>, t: Target)
    ensures forall p | p in Of(ps, t) :: p.target == t
  {
    if ps != [] { OfHolds(ps[..|ps| - 1], t); }
  }

  /** Whose turn it is changes with a completion only if a target has nothing left; then it leaves the
      order of the others as it was. */
  lemma {:induction false} CompletionKeepsTurn(all: seq<Param>, max: nat, s: State, i: nat, ok: bool)
    requires Safe(all, max, s) && i < |s.active|
    ensures s.active[i].target in s.groups
    ensures var s', t := Completed(s, i, ok), s.active[i].target;
            if !ok || |s.groups[t]| > 1 then s'.available == s.available && s'.index == s.index
            else TakenOut(s.available, t, s'.available) && (s'.available != [] ==> s'.index == if s.index < |s'.available| then s.index else 0)
  {
    var t := s.active[i].target;
    if ok && |s.groups[t]| <= 1 {
      assert s.groups[t][1..] == [];
      assert t in s.available;
      var p := WithoutAt(s.available, t);
      if Without(s.available, t) != [] { TurnIn(s.index, |Without(s.available, t)|); }
    }
  }

  ghost predicate TakenOut<T>(xs: seq<T>, x: T, ys: seq<T>) {
    exists p :: 0 <= p < |xs| && xs[p] == x && ys == xs[..p] + xs[p + 1..]
  }

  lemma {:induction false} TurnIn(index: nat, n: nat)
    requires index <= n && n > 0
    ensures index % n == if index < n then index else 0
  {
  }

  lemma {:induction false} WithoutAt<T>(xs: seq<T>, x: T) returns (p: nat)
    requires x in xs
    ensures p < |xs| && xs[p] == x && Without(xs, x) == xs[..p] + xs[p + 1..]
    ensures TakenOut(xs, x, Without(xs, x)) && |Without(xs, x)| == |xs| - 1
  {
    p := 0;
    if xs[0] != x {
      var rest := xs[1..];
      assert xs == [xs[0]] + rest;
      var q := WithoutAt(rest, x);
      p := q + 1;
      assert xs[..p] == [xs[0]] + rest[..q];
      assert xs[p + 1..] == rest[q + 1..];
      Associative([xs[0]], rest[..q], rest[q + 1..]);
    }
  }

  /* Rounds and runs */

  /** Asks the first `k` active tasks, from the last to the first. */
  ghost function Polled(all: seq<Param>, max: nat, s: State, poll: Poll, k: nat): (s': State)
    requires Safe(all, max, s) && k <= |s.active|
    ensures Safe(all, max, s')
    decreases k
  {
    if k == 0 then s
    else
      CompletionIsSafe(all, max, s, k - 1, true);
      CompletionIsSafe(all, max, s, k - 1, false);
      var answer := poll(s.active[k - 1].target);
      Polled(all, max, if answer == Pending then s else Completed(s, k - 1, answer == Success), poll, k - 1)
  }

  lemma {:induction false} PolledStep(all: seq<Param>, max: nat, s: State, poll: Poll, i: nat)
    requires Safe(all, max, s) && i < |s.active|
    ensures s.active[i].target in s.groups && s.groups[s.active[i].target] != []
    ensures var answer := poll(s.active[i].target);
            var next := if answer == Pending then s else Completed(s, i, answer == Success);
            Safe(all, max, next) && i <= |next.active| && Polled(all, max, s, poll, i + 1) == Polled(all, max, next, poll, i)
  {
    CompletionIsSafe(all, max, s, i, true);
    CompletionIsSafe(all, max, s, i, false);
  }

  ghost function Round(all: seq<Param>, max: nat, s: State, poll: Poll): (s': State)
    requires Safe(all, max, s)
    ensures Safe(all, max, s')
  {
    StartIsSafe(all, max, s);
    Polled(all, max, Started(max, s), poll, |Started(max, s).active|)
  }

  /** The state after a run of rounds, which ends when no group is left. */
  ghost function After(all: seq<Param>, max: nat, s: State, polls: seq<Poll>): (s': State)
    requires Safe(all, max, s)
    ensures Safe(all, max, s')
    decreases |polls|
  {
    if s.groups == map[] || polls == [] then s else After(all, max, Round(all, max, s, polls[0]), polls[1..])
  }

  lemma {:induction false} CountByTarget(ps: seq<Param>, p: Param)
    ensures multiset(ps)[p] == multiset(Of(ps, p.target))[p]
  {
    if ps != [] {
      var init, last := ps[..|ps| - 1], ps[|ps| - 1];
      CountByTarget(init, p);
      assert ps == init + [last];
      assert multiset(ps) == multiset(init) + multiset{last};
    }
  }

  lemma {:induction false} DoneIsPart(all: seq<Param>, max: nat, s: State)
    requires Safe(all, max, s)
    ensures multiset(s.done) <= multiset(all) && |s.done| <= |all|
    ensures s.groups != map[] ==> |s.done| < |all|
  {
    forall p
      ensures multiset(s.done)[p] <= multiset(all)[p]
      ensures p in Left(s, p.target) ==> multiset(s.done)[p] < multiset(all)[p]
    {
      CountByTarget(s.done, p);
      CountByTarget(all, p);
      assert Of(s.done, p.target) + Left(s, p.target) == Of(all, p.target);
    }
    var rest := multiset(all) - multiset(s.done);
    assert multiset(all) == multiset(s.done) + rest;
    if s.groups != map[] {
      var t := AnElement(s.groups.Keys);
      var p := s.groups[t][0];
      assert Of(s.done, t) + Left(s, t) == Of(all, t);
      ParamOfTarget(all, s, t);
      assert p in Left(s, t);
      assert rest[p] > 0;
    }
  }

  lemma {:induction false} ActiveHaveWork(all: seq<Param>, max: nat, s: State)
    requires Safe(all, max, s)
    ensures s.active != [] ==> s.groups != map[]
  {
    if s.active != [] { assert s.active[0].target in s.groups; }
  }

  /** When a run ends, every parameter set has completed exactly once, those of each target in their
      order, and nothing is active. */
  lemma {:induction false} FinishedIsComplete(all: seq<Param>, max: nat, s: State)
    requires Safe(all, max, s) && s.groups == map[]
    ensures s.active == [] && multiset(s.done) == multiset(all) && forall t :: Of(s.done, t) == Of(all, t)
  {
    ActiveHaveWork(all, max, s);
    forall t
      ensures Of(s.done, t) == Of(all, t)
    {
      assert Of(s.done, t) + Left(s, t) == Of(all, t);
    }
    forall p
      ensures multiset(s.done)[p] == multiset(all)[p]
    {
      CountByTarget(s.done, p);
      CountByTarget(all, p);
    }
  }

  /** A failed task changes neither what is left nor what is done, and leaves its target free to be
      started again. */
  lemma {:induction false} FailureIsRetried(all: seq<Param>, max: nat, s: State, i: nat)
    requires Safe(all, max, s) && i < |s.active|
    ensures var s' := Completed(s, i, false);
            s'.groups == s.groups && s'.done == s.done && s.active[i].target in s'.available && !IsActive(s'.active, s.active[i].target)
  {
    OthersStay(s.active, i);
  }

  /** How many of the first `k` tasks answer something else than success. */
  function Unsuccessful(active: seq<Task>, poll: Poll, k: nat): (n: nat)
    requires k <= |active|
    ensures n <= k
  {
    if k == 0 then 0
    else Unsuccessful(active, poll, k - 1) + if poll(active[k - 1].target) == Success then 0 else 1
  }

  lemma {:induction false} SameAnswers(active: seq<Task>, active': seq<Task>, poll: Poll, k: nat)
    requires k <= |active| && k <= |active'| && forall i | 0 <= i < k :: active[i] == active'[i]
    ensures Unsuccessful(active, poll, k) == Unsuccessful(active', poll, k)
  {
    if k > 0 { SameAnswers(active, active', poll, k - 1); }
  }

  /** What asking task `i` leaves. */
  ghost function Asked(all: seq<Param>, max: nat, s: State, poll: Poll, i: nat): State
    requires Safe(all, max, s) && i < |s.active|
  {
    var answer := poll(s.active[i].target);
    if answer == Pending then s else Completed(s, i, answer == Success)
  }

  lemma {:induction false} AskedOnce(all: seq<Param>, max: nat, s: State, poll: Poll, i: nat)
    requires Safe(all, max, s) && i < |s.active|
    ensures var s' := Asked(all, max, s, poll, i);
            && |s'.done| == |s.done| + (if poll(s.active[i].target) == Success then 1 else 0)
            && i <= |s'.active| && forall j | 0 <= j < i :: s'.active[j] == s.active[j]
  {
  }

  lemma {:induction false} SuccessesCount(all: seq<Param>, max: nat, s: State, poll: Poll, k: nat)
    requires Safe(all, max, s) && k <= |s.active|
    ensures |Polled(all, max, s, poll, k).done| == |s.done| + k - Unsuccessful(s.active, poll, k)
    decreases k
  {
    if k > 0 {
      PolledStep(all, max, s, poll, k - 1);
      AskedOnce(all, max, s, poll, k - 1);
      var next := Asked(all, max, s, poll, k - 1);
      SameAnswers(next.active, s.active, poll, k - 1);
      SuccessesCount(all, max, next, poll, k - 1);
    }
  }

  /** How many answers of active tasks over a run are no success: failures, and not being ready. */
  ghost function Delays(all: seq<Param>, max: nat, s: State, polls: seq<Poll>): nat
    requires Safe(all, max, s)
    decreases |polls|
  {
    if s.groups == map[] || polls == [] then 0
    else
      StartIsSafe(all, max, s);
      Unsuccessful(Started(max, s).active, polls[0], |Started(max, s).active|) + Delays(all, max, Round(all, max, s, polls[0]), polls[1..])
  }

  /** Every round brings a success or a delay. */
  lemma {:induction false} RoundAdvances(all: seq<Param>, max: nat, s: State, poll: Poll)
    requires Safe(all, max, s) && max > 0 && s.groups != map[]
    ensures |Round(all, max, s, poll).done| + Unsuccessful(Started(max, s).active, poll, |Started(max, s).active|) >= |s.done| + 1
  {
    StartIsSafe(all, max, s);
    var started := Started(max, s);
    SuccessesCount(all, max, started, poll, |started.active|);
  }

  /** Nothing gets stuck: as many rounds as there are parameter sets left and delays on the way are
      enough, whichever tasks are slow or fail. */
  lemma {:induction false} DelayedRunsFinish(all: seq<Param>, max: nat, s: State, polls: seq<Poll>)
    requires Safe(all, max, s) && max > 0 && |polls| >= |all| - |s.done| + Delays(all, max, s, polls)
    ensures After(all, max, s, polls).groups == map[]
    decreases |polls|
  {
    DoneIsPart(all, max, s);
    if s.groups != map[] && polls != [] {
      RoundAdvances(all, max, s, polls[0]);
      DelayedRunsFinish(all, max, Round(all, max, s, polls[0]), polls[1..]);
    }
  }

  lemma {:induction false} NoDelays(all: seq<Param>, max: nat, s: State, polls: seq<Poll>)
    requires Safe(all, max, s) && forall i, t | 0 <= i < |polls| :: polls[i](t) == Success
    ensures Delays(all, max, s, polls) == 0
    decreases |polls|
  {
    if s.groups != map[] && polls != [] {
      AllSucceed(Started(max, s).active, polls[0], |Started(max, s).active|);
      NoDelays(all, max, Round(all, max, s, polls[0]), polls[1..]);
    }
  }

  lemma {:induction false} AllSucceed(active: seq<Task>, poll: Poll, k: nat)
    requires k <= |active| && forall t :: poll(t) == Success
    ensures Unsuccessful(active, poll, k) == 0
  {
    if k > 0 { AllSucceed(active, poll, k - 1); }
  }

  /** When all tasks succeed at once, as many rounds as there are parameter sets are enough. */
  lemma {:induction false} PromptRunsFinish(all: seq<Param>, max: nat, s: State, polls: seq<Poll>)
    requires Safe(all, max, s) && max > 0 && |polls| >= |all| - |s.done|
    requires forall i, t | 0 <= i < |polls| :: polls[i](t) == Success
    ensures After(all, max, s, polls).groups == map[]
  {
    NoDelays(all, max, s, polls);
    DelayedRunsFinish(all, max, s, polls);
  }

  /* Targets run side by side */

  /** The same work in the same order, and no more tasks. */
  ghost predicate SameWork(s: State, s': State) {
    s'.groups == s.groups && s'.available == s.available && s'.index == s.index && |s'.active| <= |s.active|
  }

  lemma {:induction false} AskedInVain(all: seq<Param>, max: nat, s: State, poll: Poll, i: nat, u: Target) returns (next: State)
    requires Safe(all, max, s) && i < |s.active| && poll(s.active[i].target) != Success
    ensures Safe(all, max, next) && i <= |next.active| && Polled(all, max, s, poll, i + 1) == Polled(all, max, next, poll, i)
    ensures SameWork(s, next) && (poll(s.active[i].target) == Pending ==> next == s)
    ensures poll(u) == Pending && IsActive(s.active, u) ==> IsActive(next.active, u)
  {
    PolledStep(all, max, s, poll, i);
    next := Asked(all, max, s, poll, i);
    if poll(s.active[i].target) != Pending && poll(u) == Pending && IsActive(s.active, u) {
      StaysActive(s.active, i, u);
    }
  }

  /** No task that is asked succeeds: the groups and the order of targets stay, and who is not ready
      stays active. */
  lemma {:induction false} NothingSucceeds(all: seq<Param>, max: nat, s: State, poll: Poll, k: nat, u: Target)
    requires Safe(all, max, s) && k <= |s.active| && forall t :: poll(t) != Success
    ensures SameWork(s, Polled(all, max, s, poll, k))
    ensures poll(u) == Pending && IsActive(s.active, u) ==> IsActive(Polled(all, max, s, poll, k).active, u)
    decreases k
  {
    if k > 0 {
      var next := AskedInVain(all, max, s, poll, k - 1, u);
      NothingSucceeds(all, max, next, poll, k - 1, u);
    }
  }

  lemma {:induction false} NobodyReady(all: seq<Param>, max: nat, s: State, poll: Poll, k: nat)
    requires Safe(all, max, s) && k <= |s.active| && forall t :: poll(t) == Pending
    ensures Polled(all, max, s, poll, k) == s
    decreases k
  {
    if k > 0 {
      var next := AskedInVain(all, max, s, poll, k - 1, Target(""));
      NobodyReady(all, max, s, poll, k - 1);
    }
  }

  lemma {:induction false} StaysActive(active: seq<Task>, i: nat, u: Target)
    requires i < |active| && active[i].target != u && IsActive(active, u)
    ensures IsActive(active[..i] + active[i + 1..], u)
  {
    var rest := active[..i] + active[i + 1..];
    var j :| 0 <= j < |active| && active[j].target == u;
    assert rest[if j < i then j else j - 1] == active[j];
  }

  /** How many targets come before position `p`, counted round from the index. */
  function Distance(s: State, p: nat): nat
    requires p < |s.available| && s.index < |s.available|
  {
    if s.index <= p then p - s.index else p + |s.available| - s.index
  }

  /** Starting: the target at `p` is active already, or is started, or is one step nearer. */
  lemma {:induction false} StartStepsNearer(all: seq<Param>, max: nat, s: State, p: nat)
    requires Safe(all, max, s) && p < |s.available| && (|s.active| < max || IsActive(s.active, s.available[p]))
    ensures var s' := Started(max, s);
            && s'.available == s.available && s'.groups == s.groups && s'.index < |s.available|
            && (IsActive(s.active, s.available[p]) ==> IsActive(s'.active, s.available[p]))
            && (IsActive(s'.active, s.available[p]) || (Distance(s, p) > 0 && Distance(s', p) == Distance(s, p) - 1))
  {
    var u := s.available[p];
    StartIsSafe(all, max, s);
    var started := Started(max, s);
    if IsActive(s.active, u) {
      var j :| 0 <= j < |s.active| && s.active[j].target == u;
      assert started.active[j] == s.active[j];
    } else if s.index == p {
      assert started.active[|s.active|].target == u;
    } else {
      NextIndex(s.index, |s.available|);
    }
  }

  /** The same over one round without a success in which that target is not ready. */
  lemma {:induction false} OneStepNearer(all: seq<Param>, max: nat, s: State, poll: Poll, p: nat)
    requires Safe(all, max, s) && p < |s.available| && forall t :: poll(t) != Success
    requires poll(s.available[p]) == Pending && (|s.active| < max || IsActive(s.active, s.available[p]))
    ensures var s' := Round(all, max, s, poll);
            && s'.available == s.available && s'.groups == s.groups
            && (IsActive(s.active, s.available[p]) ==> IsActive(s'.active, s.available[p]))
            && (IsActive(s'.active, s.available[p]) || (Distance(s, p) > 0 && Distance(s', p) == Distance(s, p) - 1))
  {
    StartIsSafe(all, max, s);
    StartStepsNearer(all, max, s, p);
    NothingSucceeds(all, max, Started(max, s), poll, |Started(max, s).active|, s.available[p]);
  }

  lemma {:induction false} NextIndex(i: nat, n: nat)
    requires i < n
    ensures (i + 1) % n == if i + 1 < n then i + 1 else 0
  {
  }

  lemma {:induction false} RunsOn(all: seq<Param>, max: nat, s: State, polls: seq<Poll>, j: nat)
    requires Safe(all, max, s) && s.groups != map[] && 0 < j <= |polls|
    ensures After(all, max, s, polls[..j]) == After(all, max, Round(all, max, s, polls[0]), polls[1..][..j - 1])
  {
    assert polls[..j][1..] == polls[1..][..j - 1];
  }

  /** No task succeeds, and that of `u` is not ready. */
  ghost predicate InVain(polls: seq<Poll>, u: Target) {
    && (forall i, t | 0 <= i < |polls| :: polls[i](t) != Success)
    && forall i | 0 <= i < |polls| :: polls[i](u) == Pending
  }

  /** Whenever a round begins, a slot is free or `u` is active. */
  ghost predicate FreeFor(all: seq<Param>, max: nat, s: State, polls: seq<Poll>, u: Target)
    requires Safe(all, max, s)
  {
    forall j | 0 <= j < |polls| :: |After(all, max, s, polls[..j]).active| < max || IsActive(After(all, max, s, polls[..j]).active, u)
  }

  lemma {:induction false} FreeNow(all: seq<Param>, max: nat, s: State, polls: seq<Poll>, u: Target)
    requires Safe(all, max, s) && s.groups != map[] && polls != [] && FreeFor(all, max, s, polls, u)
    ensures |s.active| < max || IsActive(s.active, u)
    ensures FreeFor(all, max, Round(all, max, s, polls[0]), polls[1..], u)
  {
    assert After(all, max, s, polls[..0]) == s;
    var s' := Round(all, max, s, polls[0]);
    forall j | 0 <= j < |polls[1..]|
      ensures |After(all, max, s', polls[1..][..j]).active| < max || IsActive(After(all, max, s', polls[1..][..j]).active, u)
    {
      RunsOn(all, max, s, polls, j + 1);
    }
  }

  lemma {:induction false} VainLater(polls: seq<Poll>, u: Target)
    requires polls != [] && InVain(polls, u)
    ensures InVain(polls[1..], u) && (forall t :: polls[0](t) != Success) && polls[0](u) == Pending
  {
    forall i | 0 <= i < |polls[1..]|
      ensures polls[1..][i] == polls[i + 1]
    {
    }
  }

  /** While nothing succeeds, a waiting target becomes active, within as many rounds with a free slot as
      its distance says, and stays so until it is ready. */
  lemma {:induction false} ReachedInTurn(all: seq<Param>, max: nat, s: State, p: nat, polls: seq<Poll>)
    requires Safe(all, max, s) && p < |s.available| && InVain(polls, s.available[p]) && FreeFor(all, max, s, polls, s.available[p])
    requires |polls| > Distance(s, p) || IsActive(s.active, s.available[p])
    ensures IsActive(After(all, max, s, polls).active, s.available[p])
    decreases |polls|
  {
    assert s.available[p] in s.available && s.available[p] in s.groups;
    if polls != [] {
      FreeNow(all, max, s, polls, s.available[p]);
      VainLater(polls, s.available[p]);
      OneStepNearer(all, max, s, polls[0], p);
      var s' := Round(all, max, s, polls[0]);
      ReachedInTurn(all, max, s', p, polls[1..]);
      assert After(all, max, s, polls) == After(all, max, s', polls[1..]);
    }
  }

  /** A target is not kept waiting by others: if a slot is free whenever a round begins, as many rounds
      as there are targets start it, however the tasks of the others fail. */
  lemma {:induction false} WaitingIsStarted(all: seq<Param>, max: nat, s: State, u: Target, polls: seq<Poll>)
    requires Safe(all, max, s) && u in s.available && |polls| >= |s.available|
    requires InVain(polls, u) && FreeFor(all, max, s, polls, u)
    ensures IsActive(After(all, max, s, polls).active, u)
  {
    var p :| 0 <= p < |s.available| && s.available[p] == u;
    ReachedInTurn(all, max, s, p, polls);
  }

  /** A round in which nobody is ready takes no task away, and a full scheduler stays full. */
  lemma {:induction false} PendingOnlyAdds(all: seq<Param>, max: nat, s: State, polls: seq<Poll>)
    requires Safe(all, max, s) && forall i, t | 0 <= i < |polls| :: polls[i](t) == Pending
    ensures |s.active| <= |After(all, max, s, polls).active|
    ensures After(all, max, s, polls).available == s.available
    decreases |polls|
  {
    if s.groups != map[] && polls != [] {
      StartIsSafe(all, max, s);
      var started := Started(max, s);
      NobodyReady(all, max, started, polls[0], |started.active|);
      PendingOnlyAdds(all, max, Round(all, max, s, polls[0]), polls[1..]);
    }
  }

  ghost predicate AllActive(s: State) {
    forall u | u in s.available :: IsActive(s.active, u)
  }

  /** If every target is active, there are as many tasks as targets. */
  lemma {:induction false} AllActiveCount(all: seq<Param>, max: nat, s: State)
    requires Safe(all, max, s)
    ensures |s.active| <= |s.available|
    ensures AllActive(s) ==> |s.active| == |s.available|
  {
    var targets := seq(|s.active|, i requires 0 <= i < |s.active| => s.active[i].target);
    var names := set u | u in s.available;
    forall i | 0 <= i < |targets|
      ensures targets[i] in names
    {
      assert s.active[i].target in s.groups;
    }
    DistinctFit(targets, names);
    DistinctSize(s.available, names);
    if AllActive(s) {
      var active := set u | u in targets;
      forall u | u in s.available
        ensures u in active
      {
        var i :| 0 <= i < |s.active| && s.active[i].target == u;
        assert targets[i] == u;
      }
      DistinctFit(s.available, active);
      DistinctSize(targets, active);
    }
  }

  lemma {:induction false} DistinctSize<T>(xs: seq<T>, s: set<T>)
    requires Distinct(xs) && forall x :: x in xs <==> x in s
    ensures |s| == |xs|
  {
    if xs != [] {
      var rest := xs[1..];
      forall x
        ensures x in rest <==> x in s - {xs[0]}
      {
        assert xs == [xs[0]] + rest;
        if x in rest {
          var i :| 0 <= i < |rest| && rest[i] == x;
          assert xs[i + 1] == x;
        }
      }
      assert Distinct(rest);
      DistinctSize(rest, s - {xs[0]});
    } else {
      assert s == {};
    }
  }

  /** While nobody is ready, as many rounds as there are targets start all of them, or as many as may
      be active at once. */
  lemma {:induction false} PendingFillsSlots(all: seq<Param>, max: nat, s: State, polls: seq<Poll>)
    requires Safe(all, max, s) && |polls| == |s.available|
    requires forall i, t | 0 <= i < |polls| :: polls[i](t) == Pending
    ensures |After(all, max, s, polls).active| == if max < |s.available| then max else |s.available|
  {
    var last := After(all, max, s, polls);
    PendingOnlyAdds(all, max, s, polls);
    AllActiveCount(all, max, last);
    if |last.active| < max {
      forall j | 0 <= j < |polls|
        ensures |After(all, max, s, polls[..j]).active| < max
      {
        StillFree(all, max, s, polls, j);
      }
      forall u | u in last.available
        ensures IsActive(last.active, u)
      {
        WaitingIsStarted(all, max, s, u, polls);
      }
    }
  }

  lemma {:induction false} StillFree(all: seq<Param>, max: nat, s: State, polls: seq<Poll>, j: nat)
    requires Safe(all, max, s) && j <= |polls| && forall i, t | 0 <= i < |polls| :: polls[i](t) == Pending
    ensures |After(all, max, s, polls[..j]).active| <= |After(all, max, s, polls).active|
    decreases |polls|
  {
    if j == 0 || s.groups == map[] {
      PendingOnlyAdds(all, max, s, polls);
    } else {
      RunsOn(all, max, s, polls, j);
      StillFree(all, max, Round(all, max, s, polls[0]), polls[1..], j - 1);
    }
  }

  /* The scheduler as it runs */

  class ParallelRunner {
    const maxParallel: nat
    var targetGroups: map<Target, seq<Param>>
    var availableTargets: seq<Target>
    var targetIndex: nat
    var activeTasks: seq<Task>
    ghost var done: seq<Param>

    ghost function Now(): State
      reads this
    {
      State(targetGroups, availableTargets, targetIndex, activeTasks, done)
    }

    constructor (maxParallel: nat, all: seq<Param>)
      ensures this.maxParallel == maxParallel
      ensures Now() == Initial(targetGroups, availableTargets) && Grouped(all, targetGroups, availableTargets)
    {
      this.maxParallel := maxParallel;
      var groups, order := GroupParamsByTarget(all);
      targetGroups, availableTargets := groups, order;
      targetIndex, activeTasks, done := 0, [], [];
    }

    method ProcessCompletedTask(i: nat, outcome: Outcome, ghost all: seq<Param>)
      requires Safe(all, maxParallel, Now()) && i < |activeTasks| && outcome != Pending
      modifies this
      ensures Now() == Completed(old(Now()), i, outcome == Success) && Safe(all, maxParallel, Now())
    {
      CompletionIsSafe(all, maxParallel, Now(), i, outcome == Success);
      var task := activeTasks[i];
      if outcome == Success {
        targetGroups := targetGroups[task.target := targetGroups[task.target][1..]];
        done := done + [task.params];
        if targetGroups[task.target] == [] {
          targetGroups := targetGroups - {task.target};
          availableTargets := Without(availableTargets, task.target);
          if availableTargets != [] {
            targetIndex := targetIndex % |availableTargets|;
          }
        }
      }
      activeTasks := activeTasks[..i] + activeTasks[i + 1..];
    }

    method StartTask(ghost all: seq<Param>)
      requires Safe(all, maxParallel, Now())
      modifies this
      ensures old(availableTargets) != [] ==>
                old(targetIndex) < |old(availableTargets)| && old(availableTargets[targetIndex]) in old(targetGroups)
                && old(targetGroups[availableTargets[targetIndex]]) != []
      ensures Now() == Started(maxParallel, old(Now())) && Safe(all, maxParallel, Now())
    {
      StartIsSafe(all, maxParallel, Now());
      if |activeTasks| < maxParallel && availableTargets != [] {
        var target := availableTargets[targetIndex];
        targetIndex := (targetIndex + 1) % |availableTargets|;
        if !IsActive(activeTasks, target) {
          activeTasks := activeTasks + [Task(target, targetGroups[target][0])];
        }
      }
    }

    method PollTasks(poll: Poll, ghost all: seq<Param>)
      requires Safe(all, maxParallel, Now())
      modifies this
      ensures Now() == Polled(all, maxParallel, old(Now()), poll, |old(activeTasks)|)
    {
      var i: nat := |activeTasks|;
      while i > 0
        invariant Safe(all, maxParallel, Now()) && i <= |activeTasks|
        invariant Polled(all, maxParallel, Now(), poll, i) == Polled(all, maxParallel, old(Now()), poll, |old(activeTasks)|)
      {
        i := i - 1;
        PolledStep(all, maxParallel, Now(), poll, i);
        var answer := poll(activeTasks[i].target);
        if answer != Pending {
          ProcessCompletedTask(i, answer, all);
        }
      }
    }

    /** The loop, driven by what the tasks answer in each round. */
    method RunParallelTasks(polls: seq<Poll>, ghost all: seq<Param>)
      requires Grouped(all, targetGroups, availableTargets) && Now() == Initial(targetGroups, availableTargets)
      modifies this
      ensures Safe(all, maxParallel, old(Now())) && Now() == After(all, maxParallel, old(Now()), polls)
      ensures targetGroups == map[] ==> multiset(done) == multiset(all) && forall t :: Of(done, t) == Of(all, t)
    {
      InitiallySafe(all, maxParallel, targetGroups, availableTargets);
      var i := 0;
      while targetGroups != map[] && i < |polls|
        invariant i <= |polls| && Safe(all, maxParallel, Now())
        invariant After(all, maxParallel, Now(), polls[i..]) == After(all, maxParallel, old(Now()), polls)
        decreases |polls| - i
      {
        ghost var before := Now();
        StartTask(all);
        PollTasks(polls[i], all);
        assert Now() == Round(all, maxParallel, before, polls[i]);
        assert polls[i..][1..] == polls[i + 1..];
        i := i + 1;
      }
      if targetGroups == map[] { FinishedIsComplete(all, maxParallel, Now()); }
    }
  }
}
