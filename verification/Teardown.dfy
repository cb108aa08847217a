/** How far a reset keeps its order: requirers finish first, but may survive. */
module Teardown {
  import opened Collections
  import opened Registry
  import opened Executor

  // -------------------------------------------------- requirers finish first

  /** When a hook is dispatched or wiring is touched, the steps before its component's have all finished. */
  ghost predicate AfterAllBefore(order: seq<Id>, k: nat, trace: seq<Event>, i: nat)
    requires k <= |order| && i < |trace| && trace[i].Acts()
  {
    exists j :: 0 <= j < k && order[j] == trace[i].id && forall l :: 0 <= l < j ==> Finished(trace[..i], order[l])
  }

  lemma FinishedStays(a: seq<Event>, b: seq<Event>, id: Id)
    requires Finished(a, id)
    ensures Finished(a + b, id)
  {
    var st :| StepFinished(Comp(id), st) in a;
    assert StepFinished(Comp(id), st) in a + b;
  }

  lemma HookInStep(id: Id, hooks: seq<Event>, st: Status, i: nat)
    requires AllHooksOf(id, hooks) && i < |StepEvents(id, hooks, st)| && StepEvents(id, hooks, st)[i].Acts()
    ensures StepEvents(id, hooks, st)[i].id == id
  {
  }

  lemma {:induction false} StepsInTurn(env: Env, plan: Plan, m: Graph, order: seq<Id>, k: nat, i: nat)
    requires NoDup(order) && (Forward(plan) ==> OrderedPrefix(m, order)) && forall x :: x in order ==> x in m
    requires k <= |order| && i < |StepsOf(env, plan, m, order, k).trace| && StepsOf(env, plan, m, order, k).trace[i].Acts()
    ensures AfterAllBefore(order, k, StepsOf(env, plan, m, order, k).trace, i)
  {
    hide NoDup, OrderedPrefix, StepOf, StepEvents, AllHooksOf, Finished;
    var p, id := StepsOf(env, plan, m, order, k - 1), order[k - 1];
    var (st, hooks) := StepOf(env, plan, id, m[id], p.failed, |p.trace| + 1);
    var trace := p.trace + StepEvents(id, hooks, st);
    if i < |p.trace| {
      StepsInTurn(env, plan, m, order, k - 1, i);
      assert trace[..i] == p.trace[..i] && trace[i] == p.trace[i];
    } else {
      StepHooks(env, plan, id, m[id], p.failed, |p.trace| + 1);
      HookInStep(id, hooks, st, i - |p.trace|);
      AllFinished(env, plan, m, order, k - 1);
      assert trace[..i] == p.trace + StepEvents(id, hooks, st)[..i - |p.trace|];
      forall l | 0 <= l < k - 1 ensures Finished(trace[..i], order[l]) {
        FinishedStays(p.trace, StepEvents(id, hooks, st)[..i - |p.trace|], order[l]);
      }
    }
  }

  lemma AllFinished(env: Env, plan: Plan, m: Graph, order: seq<Id>, k: nat)
    requires NoDup(order) && (Forward(plan) ==> OrderedPrefix(m, order)) && forall x :: x in order ==> x in m
    requires k <= |order|
    ensures forall l :: 0 <= l < k ==> Finished(StepsOf(env, plan, m, order, k).trace, order[l])
  {
    hide NoDup, OrderedPrefix, DispatchSafe;
    StepsAreDone(env, plan, m, order, k);
    assert forall l :: 0 <= l < k ==> order[..k][l] == order[l];
  }

  /** A reset's order of steps: the removal set in reverse. */
  ghost function ResetOrder(reg: Registry, env: Env, plan: Plan): seq<Id> {
    Reversed(Select(reg.order, RemovalSet(reg, env, plan)))
  }

  lemma ResetOrderFacts(reg: Registry, env: Env, plan: Plan)
    requires reg.Loaded() && forall t :: t in plan.targets ==> t in reg.comps
    ensures NoDup(ResetOrder(reg, env, plan)) && DependentsFirst(reg.comps, ResetOrder(reg, env, plan))
    ensures ToSet(ResetOrder(reg, env, plan)) == RemovalSet(reg, env, plan)
    ensures forall x :: x in ResetOrder(reg, env, plan) ==> x in reg.comps
  {
    hide RemovalSet, DependentsFirst, Topological, NoDup;
    TeardownIsDependentsFirst(reg, RemovalSet(reg, env, plan));
    RemovalSetIsComponents(reg, env, plan);
    TeardownComponents(reg, RemovalSet(reg, env, plan));
  }

  lemma RequirerIsBefore(reg: Registry, env: Env, plan: Plan, j: nat, y: Id) returns (l: nat)
    requires reg.Loaded() && forall t :: t in plan.targets ==> t in reg.comps
    requires var order := ResetOrder(reg, env, plan);
      j < |order| && Live(reg, env, y) && Requires(reg.comps, y, order[j])
    ensures l < j && ResetOrder(reg, env, plan)[l] == y
  {
    hide RemovalSet, Topological, Live, NoDup;
    var order := ResetOrder(reg, env, plan);
    ResetOrderFacts(reg, env, plan);
    RemovalIsLiveClosed(reg, env, plan);
    assert order[j] in ToSet(order);
    assert y in ToSet(order);
    l :| 0 <= l < |order| && order[l] == y;
    RequiresDescends(reg, y, order[j]);
  }

  /** In a reset, a hook is dispatched and wiring reverted only after the step of every live component that requires this one,
      directly or not, has finished. */
  lemma RequirersFinishFirst(reg: Registry, env: Env, plan: Plan, i: nat, y: Id)
    requires reg.Loaded() && plan.phase == Remove && forall t :: t in plan.targets ==> t in reg.comps
    requires forall x :: x in ResetOrder(reg, env, plan) ==> x in reg.comps
    requires var order := ResetOrder(reg, env, plan); var trace := StepsOf(env, plan, reg.comps, order, |order|).trace;
      i < |trace| && trace[i].Acts() && Live(reg, env, y) && Requires(reg.comps, y, trace[i].id)
    ensures var order := ResetOrder(reg, env, plan); var trace := StepsOf(env, plan, reg.comps, order, |order|).trace;
      Finished(trace[..i], y)
  {
    hide ResetOrder, StepsOf, Topological, NoDup, Live, Requires, Finished;
    var order := ResetOrder(reg, env, plan);
    var trace := StepsOf(env, plan, reg.comps, order, |order|).trace;
    ResetOrderFacts(reg, env, plan);
    StepsInTurn(env, plan, reg.comps, order, |order|, i);
    var j :| 0 <= j < |order| && order[j] == trace[i].id && forall l :: 0 <= l < j ==> Finished(trace[..i], order[l]);
    var l := RequirerIsBefore(reg, env, plan, j, y);
  }

  // ------------------------------------------------ but they may survive

  /** The component's own removal came to a good end. */
  ghost predicate Gone(trace: seq<Event>, id: Id) {
    StepFinished(Comp(id), Ok) in trace || StepFinished(Comp(id), NoHook) in trace
  }

  /** Nothing is torn down under a live component that requires it and is not gone. */
  ghost predicate GoneFirst(reg: Registry, env: Env, plan: Plan, order: seq<Id>)
    requires forall x :: x in order ==> x in reg.comps
  {
    var trace := StepsOf(env, plan, reg.comps, order, |order|).trace;
    forall x, y :: HookRun(x, Remove) in trace && Live(reg, env, y) && Requires(reg.comps, y, x) ==> Gone(trace, y)
  }

  /** Whatever hooks, guards and wiring do, as long as the gates see the same. */
  ghost predicate AlwaysGoneFirst(reg: Registry, env: Env, plan: Plan, order: seq<Id>)
    requires forall x :: x in order ==> x in reg.comps
  {
    forall e: Env :: e.gpuPresent == env.gpuPresent && e.probe == env.probe ==> GoneFirst(reg, e, plan, order)
  }

  predicate Removable(c: Component, gpu: bool) { c.hasRemove && (c.gpuRequired ==> gpu) }

  /** Nothing with a remove hook to run has a live component above it. */
  ghost predicate NothingLiveAbove(reg: Registry, env: Env, order: seq<Id>)
    requires forall x :: x in order ==> x in reg.comps
  {
    forall x, y :: x in order && Live(reg, env, y) && Requires(reg.comps, y, x) ==> !Removable(reg.comps[x], env.gpuPresent)
  }

  /** Every hook reports success, the detect hook after the removal too. */
  function Stubborn(env: Env): Env {
    Env(env.gpuPresent, env.probe, (at, id, phase) => Ok, (at, id, phase) => false, (at, id) => false, (at, id) => true)
  }

  lemma RemoveStep(env: Env, plan: Plan, id: Id, c: Component, failed: set<Id>, at: nat)
    requires plan.phase == Remove
    ensures HookRun(id, Remove) in StepOf(env, plan, id, c, failed, at).1 ==> Removable(c, env.gpuPresent)
  {
  }

  lemma StubbornStep(env: Env, plan: Plan, id: Id, c: Component, failed: set<Id>, at: nat)
    requires plan.phase == Remove && !plan.dryRun
    ensures Removable(c, env.gpuPresent) ==> HookRun(id, Remove) in StepOf(Stubborn(env), plan, id, c, failed, at).1
    ensures c.hasDetect && (c.gpuRequired ==> env.gpuPresent) ==> StepOf(Stubborn(env), plan, id, c, failed, at).0 == Incomplete
  {
    var events := PhaseEvents(Stubborn(env), id, c, Remove, at);
    if Removable(c, env.gpuPresent) { assert events[0] == HookRun(id, Remove); }
  }

  lemma {:induction false} HookNeedsRemovable(env: Env, plan: Plan, m: Graph, order: seq<Id>, k: nat, x: Id)
    requires plan.phase == Remove && k <= |order| && forall z :: z in order ==> z in m
    requires HookRun(x, Remove) in StepsOf(env, plan, m, order, k).trace
    ensures x in order && Removable(m[x], env.gpuPresent)
  {
    hide StepOf, Removable, AllHooksOf;
    var p, id := StepsOf(env, plan, m, order, k - 1), order[k - 1];
    var (st, hooks) := StepOf(env, plan, id, m[id], p.failed, |p.trace| + 1);
    if HookRun(x, Remove) in p.trace {
      HookNeedsRemovable(env, plan, m, order, k - 1, x);
    } else {
      StepHooks(env, plan, id, m[id], p.failed, |p.trace| + 1);
      OwnHook(id, hooks, x);
      RemoveStep(env, plan, id, m[id], p.failed, |p.trace| + 1);
    }
  }

  lemma OwnHook(id: Id, hooks: seq<Event>, x: Id)
    requires AllHooksOf(id, hooks)
    ensures HookRun(x, Remove) in hooks ==> x == id
  {
  }

  /** What the stubborn run's trace holds for one component of the order. */
  lemma {:induction false} StubbornTrace(env: Env, plan: Plan, m: Graph, order: seq<Id>, k: nat, j: nat)
    requires plan.phase == Remove && !plan.dryRun && j < k <= |order| && forall z :: z in order ==> z in m
    ensures var trace, c := StepsOf(Stubborn(env), plan, m, order, k).trace, m[order[j]];
      && (Removable(c, env.gpuPresent) ==> HookRun(order[j], Remove) in trace)
      && (c.hasDetect && (c.gpuRequired ==> env.gpuPresent) ==> StepFinished(Comp(order[j]), Incomplete) in trace)
  {
    hide StepOf, Removable, Stubborn;
    var p, id := StepsOf(Stubborn(env), plan, m, order, k - 1), order[k - 1];
    if j < k - 1 {
      StubbornTrace(env, plan, m, order, k - 1, j);
    } else {
      StubbornStep(env, plan, id, m[id], p.failed, |p.trace| + 1);
      var (st, hooks) := StepOf(Stubborn(env), plan, id, m[id], p.failed, |p.trace| + 1);
      var events := StepEvents(id, hooks, st);
      assert events[|events| - 1] == StepFinished(Comp(id), st);
    }
  }

  lemma StubbornSurvives(reg: Registry, env: Env, plan: Plan, x: Id, y: Id)
    requires reg.Loaded() && plan.phase == Remove && !plan.dryRun && forall t :: t in plan.targets ==> t in reg.comps
    requires forall z :: z in ResetOrder(reg, env, plan) ==> z in reg.comps
    requires x in ResetOrder(reg, env, plan) && Live(reg, env, y) && Requires(reg.comps, y, x)
    requires Removable(reg.comps[x], env.gpuPresent)
    ensures !GoneFirst(reg, Stubborn(env), plan, ResetOrder(reg, env, plan))
  {
    hide StepsOf, Topological, NoDup, Requires, ResetOrder, Removable;
    var order := ResetOrder(reg, env, plan);
    var j :| 0 <= j < |order| && order[j] == x;
    var l := RequirerIsBefore(reg, env, plan, j, y);
    StubbornTrace(env, plan, reg.comps, order, |order|, j);
    StubbornTrace(env, plan, reg.comps, order, |order|, l);
    ResetOrderFacts(reg, env, plan);
    StepsAreDone(Stubborn(env), plan, reg.comps, order, |order|);
    var trace := StepsOf(Stubborn(env), plan, reg.comps, order, |order|).trace;
    assert StepFinished(Comp(y), Incomplete) in trace && EndsOnce(trace);
    assert Live(reg, Stubborn(env), y);
  }

  /** A reset tears nothing down under a live component that is not gone, whatever hooks, guards and wiring do,
      exactly when nothing it has a remove hook to run for has a live component above it. */
  lemma GoneFirstExactly(reg: Registry, env: Env, plan: Plan)
    requires reg.Loaded() && plan.phase == Remove && !plan.dryRun && forall t :: t in plan.targets ==> t in reg.comps
    ensures forall z :: z in ResetOrder(reg, env, plan) ==> z in reg.comps
    ensures AlwaysGoneFirst(reg, env, plan, ResetOrder(reg, env, plan)) <==> NothingLiveAbove(reg, env, ResetOrder(reg, env, plan))
  {
    hide GoneFirst, ResetOrder, Topological, NoDup, Requires, Removable, Stubborn;
    var order := ResetOrder(reg, env, plan);
    ResetOrderFacts(reg, env, plan);
    if NothingLiveAbove(reg, env, order) {
      forall e: Env | e.gpuPresent == env.gpuPresent && e.probe == env.probe ensures GoneFirst(reg, e, plan, order) {
        NeverUnderLive(reg, env, e, plan, order);
      }
    } else {
      var x, y :| x in order && Live(reg, env, y) && Requires(reg.comps, y, x) && Removable(reg.comps[x], env.gpuPresent);
      StubbornSurvives(reg, env, plan, x, y);
      StubbornLooksAlike(env);
    }
  }

  lemma StubbornLooksAlike(env: Env)
    ensures Stubborn(env).gpuPresent == env.gpuPresent && Stubborn(env).probe == env.probe
  {
  }

  lemma NeverUnderLive(reg: Registry, env: Env, e: Env, plan: Plan, order: seq<Id>)
    requires plan.phase == Remove && forall z :: z in order ==> z in reg.comps
    requires e.gpuPresent == env.gpuPresent && e.probe == env.probe && NothingLiveAbove(reg, env, order)
    ensures GoneFirst(reg, e, plan, order)
  {
    hide StepsOf, Requires, Removable;
    var trace := StepsOf(e, plan, reg.comps, order, |order|).trace;
    forall x | HookRun(x, Remove) in trace ensures x in order && Removable(reg.comps[x], env.gpuPresent) {
      HookNeedsRemovable(e, plan, reg.comps, order, |order|, x);
    }
    assert forall y :: Live(reg, env, y) == Live(reg, e, y);
  }

  // ------------------------------------------------------------- an instance

  function Removed(needs: seq<Id>): Component {
    Component(needs, false, false, true, false, false, false, true, false, false, false)
  }

  /** `b` needs `a`; a reset of both. */
  function Pair(a: Id, b: Id): Registry { Registry(map[a := Removed([]), b := Removed([a])], [a, b]) }

  function ResetBoth(a: Id, b: Id): Plan { Plan(Remove, [a, b], false, Gates(false, true, false)) }

  const ALL_LIVE := Env(true, id => Ok, (at, id, phase) => Ok, (at, id, phase) => false, (at, id) => false, (at, id) => true)

  /** `b` is still detected after its removal, and `a`, which it requires, is torn down all the same. */
  lemma TornDownUnderLive(a: Id, b: Id)
    requires a != b
    ensures var reg, plan := Pair(a, b), ResetBoth(a, b);
      && Live(reg, ALL_LIVE, b) && Requires(reg.comps, b, a)
      && (var p := StepsOf(ALL_LIVE, plan, reg.comps, [b, a], 2);
          p.results == [OpResult(Comp(b), Incomplete), OpResult(Comp(a), Incomplete)] && HookRun(a, Remove) in p.trace)
  {
    var reg, plan, order := Pair(a, b), ResetBoth(a, b), [b, a];
    RequiresDirect(reg.comps, b, a);
    var p0, p1 := StepsOf(ALL_LIVE, plan, reg.comps, order, 0), StepsOf(ALL_LIVE, plan, reg.comps, order, 1);
    var p2 := StepsOf(ALL_LIVE, plan, reg.comps, order, 2);
    assert p1.failed == {} && p1.results == [OpResult(Comp(b), Incomplete)];
    var step := StepOf(ALL_LIVE, plan, a, reg.comps[a], {}, |p1.trace| + 1);
    assert step.0 == Incomplete && step.1[0] == HookRun(a, Remove);
    assert p2.results == p1.results + [OpResult(Comp(a), Incomplete)];
    assert p2.trace[|p1.trace| + 1] == HookRun(a, Remove);
  }
}
