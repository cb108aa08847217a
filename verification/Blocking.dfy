/** How far a failure blocks: direct prerequisites only, and when that suffices. */
module Blocking {
  import opened Collections
  import opened Registry
  import opened Executor

  // ----------------------------------------------------------- the failing input

  /** Blocking is by direct prerequisites only: when `a` fails and `b` is blocked for it, a component
      that requires only `b` is not blocked, although it requires `a` through `b`. */
  lemma BlockingStopsAfterOneLevel(reg: Registry, env: Env, plan: Plan, sum: Summary, trace: seq<Event>, order: seq<Id>, a: Id, b: Id, c: Id)
    requires RunGuarantee(reg, env, plan, sum, trace, order) && Forward(plan) && b in order && c in order
    requires b in reg.comps && a in reg.comps[b].needs && FailedIn(trace, a)
    requires c in reg.comps && reg.comps[c].needs == [b]
    ensures StepFinished(Comp(b), SkippedBlocked) in trace && StepFinished(Comp(c), SkippedBlocked) !in trace
    ensures Requires(reg.comps, c, a)
  {
    assert BlockedRightly(reg.comps, plan, trace, b) && BlockedRightly(reg.comps, plan, trace, c);
    RequiresDirect(reg.comps, c, b);
    RequiresDirect(reg.comps, b, a);
    RequiresTransitive(reg.comps, c, b, a);
  }

  /** A component with nothing but an install hook. */
  function Installed(needs: seq<Id>): Component {
    Component(needs, false, false, false, true, false, false, false, false, false, false)
  }

  /** `b` needs `a`, and `c` needs `b`. */
  function Line(a: Id, b: Id, c: Id): Registry {
    Registry(map[a := Installed([]), b := Installed([a]), c := Installed([b])], [a, b, c])
  }

  const INSTALL_ALL := Plan(Install, [], false, Gates(false, false, false))

  /** Everything goes well, except that every acting hook of `y` fails and its health checks find it broken. */
  function Sabotage(gpu: bool, plan: Plan, y: Id): Env {
    Env(gpu, id => Ok,
        (at, id, phase) => if id == y && !(plan.phase == Fix && phase == Detect) then Failed else Ok,
        (at, id, phase) => false, (at, id) => false, (at, id) => id != y)
  }

  lemma LineIsLoaded(a: Id, b: Id, c: Id)
    requires a != b && b != c && a != c
    ensures Line(a, b, c).Loaded()
  {
    var m, order := Line(a, b, c).comps, [a, b, c];
    assert order[0] == a && order[1] == b && order[2] == c;
    forall i, d | 0 <= i < 3 && d in Deps(m, order[i]) ensures Before(order, i, d) {
      assert order[i - 1] == d;
    }
  }

  /** `a` fails, `b` is blocked, and yet `c`, which requires both, is installed. */
  lemma RunsOnRubble(a: Id, b: Id, c: Id)
    requires a != b && b != c && a != c
    ensures var reg, env := Line(a, b, c), Sabotage(false, INSTALL_ALL, a);
      && reg.Loaded() && Requires(reg.comps, c, a)
      && (var p := StepsOf(env, INSTALL_ALL, reg.comps, [a, b, c], 3);
          && p.results == [OpResult(Comp(a), Failed), OpResult(Comp(b), SkippedBlocked), OpResult(Comp(c), Ok)]
          && HookRun(c, Install) in p.trace)
  {
    var reg, env, order := Line(a, b, c), Sabotage(false, INSTALL_ALL, a), [a, b, c];
    LineIsLoaded(a, b, c);
    RequiresDirect(reg.comps, c, b);
    RequiresDirect(reg.comps, b, a);
    RequiresTransitive(reg.comps, c, b, a);
    var p0, p1 := StepsOf(env, INSTALL_ALL, reg.comps, order, 0), StepsOf(env, INSTALL_ALL, reg.comps, order, 1);
    var p2, p3 := StepsOf(env, INSTALL_ALL, reg.comps, order, 2), StepsOf(env, INSTALL_ALL, reg.comps, order, 3);
    assert p1.failed == {a} && p1.results == [OpResult(Comp(a), Failed)];
    assert p2.failed == {a} && p2.results == p1.results + [OpResult(Comp(b), SkippedBlocked)];
    var step := StepOf(env, INSTALL_ALL, c, reg.comps[c], {a}, |p2.trace| + 1);
    assert step.1 == [HookRun(c, Install)] && step.0 == Ok;
    assert p3.trace[|p2.trace| + 1] == HookRun(c, Install);
  }

  // -------------------------------------------------- when blocking is complete

  /** The component's action can end Failed: its hook exists, its GPU is there, and a fix is not sure to be
      triaged away. */
  predicate CanFail(plan: Plan, c: Component, gpu: bool) {
    && HasHook(c, plan.phase) && (c.gpuRequired ==> gpu)
    && (plan.phase == Fix && !plan.dryRun ==> (c.hasVerify || c.ProbedWiring()) && (c.systemWiring ==> plan.gates.confirm))
  }

  /** Everything that requires a failed component, directly or not, ends blocked. */
  ghost predicate BlocksAll(env: Env, plan: Plan, m: Graph, order: seq<Id>)
    requires forall x :: x in order ==> x in m
  {
    var trace := StepsOf(env, plan, m, order, |order|).trace;
    forall x, y :: x in order && Requires(m, x, y) && FailedIn(trace, y) ==> StepFinished(Comp(x), SkippedBlocked) in trace
  }

  ghost predicate AlwaysBlocksAll(gpu: bool, plan: Plan, m: Graph, order: seq<Id>)
    requires forall x :: x in order ==> x in m
  {
    forall env: Env :: env.gpuPresent == gpu ==> BlocksAll(env, plan, m, order)
  }

  /** Whatever can fail is required directly by everything that requires it at all. */
  ghost predicate FallibleAreDirect(gpu: bool, plan: Plan, m: Graph, order: seq<Id>)
    requires forall x :: x in order ==> x in m
  {
    forall x, y :: x in order && y in order && Requires(m, x, y) && CanFail(plan, m[y], gpu) ==> y in m[x].needs
  }

  lemma FailureNeedsHook(env: Env, plan: Plan, id: Id, c: Component, failed: set<Id>, at: nat)
    requires StepOf(env, plan, id, c, failed, at).0 == Failed
    ensures CanFail(plan, c, env.gpuPresent)
  {
    TriageSkipsOrRefuses(env, plan, id, c, at);
  }

  lemma {:induction false} FailedCouldFail(env: Env, plan: Plan, m: Graph, order: seq<Id>, k: nat)
    requires k <= |order| && forall x :: x in order ==> x in m
    ensures forall y :: y in StepsOf(env, plan, m, order, k).failed ==> y in order && CanFail(plan, m[y], env.gpuPresent)
  {
    hide StepOf, CanFail, StepEvents;
    if k > 0 {
      FailedCouldFail(env, plan, m, order, k - 1);
      var p, id := StepsOf(env, plan, m, order, k - 1), order[k - 1];
      if StepOf(env, plan, id, m[id], p.failed, |p.trace| + 1).0 == Failed {
        FailureNeedsHook(env, plan, id, m[id], p.failed, |p.trace| + 1);
      }
    }
  }

  lemma DirectIsEnough(env: Env, plan: Plan, m: Graph, order: seq<Id>)
    requires Forward(plan) && NoDup(order) && OrderedPrefix(m, order) && forall x :: x in order ==> x in m
    requires FallibleAreDirect(env.gpuPresent, plan, m, order)
    ensures BlocksAll(env, plan, m, order)
  {
    hide StepsOf, NoDup, OrderedPrefix, CanFail, DispatchSafe, Requires;
    StepsAreDone(env, plan, m, order, |order|);
    FailedCouldFail(env, plan, m, order, |order|);
    assert order[..|order|] == order;
    var trace := StepsOf(env, plan, m, order, |order|).trace;
    forall x, y | x in order && Requires(m, x, y) && FailedIn(trace, y) ensures StepFinished(Comp(x), SkippedBlocked) in trace {
      assert y in m[x].needs;
      assert BlockedRightly(m, plan, trace, x);
    }
  }

  lemma SabotagedStep(gpu: bool, plan: Plan, y: Id, id: Id, c: Component, failed: set<Id>, at: nat)
    requires Forward(plan)
    ensures var st := StepOf(Sabotage(gpu, plan, y), plan, id, c, failed, at).0;
      && (id != y ==> st != Failed)
      && (id == y && CanFail(plan, c, gpu) && !Blocked(plan, c, failed) ==> st == Failed)
  {
    hide Blocked;
    if id != y { TriageSkipsOrRefuses(Sabotage(gpu, plan, y), plan, id, c, at); }
  }

  /** Sabotage makes `y` fail and nothing else. */
  lemma {:induction false} SabotageHits(gpu: bool, plan: Plan, m: Graph, order: seq<Id>, y: Id, k: nat)
    requires Forward(plan) && NoDup(order) && k <= |order| && forall x :: x in order ==> x in m
    requires y in order && CanFail(plan, m[y], gpu)
    ensures StepsOf(Sabotage(gpu, plan, y), plan, m, order, k).failed == if y in order[..k] then {y} else {}
  {
    hide StepOf, CanFail, StepEvents, NoDup;
    if k > 0 {
      SabotageHits(gpu, plan, m, order, y, k - 1);
      TakeOneMore(order, k - 1);
      NotYet(order, k - 1);
      var p, id := StepsOf(Sabotage(gpu, plan, y), plan, m, order, k - 1), order[k - 1];
      SabotagedStep(gpu, plan, y, id, m[id], p.failed, |p.trace| + 1);
    }
  }

  lemma NotYet(order: seq<Id>, k: nat)
    requires NoDup(order) && k < |order|
    ensures order[k] !in order[..k]
  {
  }

  lemma IndirectSlips(gpu: bool, plan: Plan, m: Graph, order: seq<Id>, x: Id, y: Id)
    requires Forward(plan) && NoDup(order) && OrderedPrefix(m, order) && forall z :: z in order ==> z in m
    requires x in order && y in order && Requires(m, x, y) && CanFail(plan, m[y], gpu) && y !in m[x].needs
    ensures !BlocksAll(Sabotage(gpu, plan, y), plan, m, order)
  {
    hide StepsOf, NoDup, OrderedPrefix, CanFail, DispatchSafe, Requires, Sabotage;
    var env := Sabotage(gpu, plan, y);
    StepsAreDone(env, plan, m, order, |order|);
    SabotageHits(gpu, plan, m, order, y, |order|);
    assert order[..|order|] == order;
    var trace := StepsOf(env, plan, m, order, |order|).trace;
    assert FailedIn(trace, y) && BlockedRightly(m, plan, trace, x);
  }

  /** A failure blocks everything that requires the failed component, whatever hooks, guards and wiring do,
      exactly when every component that can fail is a direct prerequisite of all that require it. */
  lemma BlocksAllExactly(gpu: bool, plan: Plan, m: Graph, order: seq<Id>)
    requires Forward(plan) && NoDup(order) && OrderedPrefix(m, order) && forall x :: x in order ==> x in m
    ensures AlwaysBlocksAll(gpu, plan, m, order) <==> FallibleAreDirect(gpu, plan, m, order)
  {
    hide BlocksAll, CanFail, NoDup, OrderedPrefix, Requires;
    if FallibleAreDirect(gpu, plan, m, order) {
      forall env: Env | env.gpuPresent == gpu ensures BlocksAll(env, plan, m, order) {
        DirectIsEnough(env, plan, m, order);
      }
    } else {
      var x, y :| x in order && y in order && Requires(m, x, y) && CanFail(plan, m[y], gpu) && y !in m[x].needs;
      IndirectSlips(gpu, plan, m, order, x, y);
      assert Sabotage(gpu, plan, y).gpuPresent == gpu;
    }
  }
}
