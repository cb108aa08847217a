/** The best-effort run loop: ordering, gates, blocking and rosters. */
module Executor {
  import opened Collections
  import opened Registry

  datatype Phase = Detect | Install | Verify | Fix | Remove

  datatype Status = Ok | Failed | Skipped | SkippedBlocked | Refused | DryRun | NoHook | RebootRequired | Incomplete

  /** What a hook runner reports. */
  type HookStatus = s: Status | s == Ok || s == Failed || s == DryRun || s == RebootRequired witness Ok

  datatype Gates = Gates(all: bool, confirm: bool, cascade: bool)

  datatype Plan = Plan(phase: Phase, targets: seq<Id>, dryRun: bool, gates: Gates)

  /** Who a result or a roster entry is about: a component, or the run as a whole. */
  datatype Subject = Comp(id: Id) | WholeReset | WholeCascade

  datatype OpResult = OpResult(subject: Subject, status: Status)

  /** Rosters are sets: the source sorts and de-duplicates them before returning. */
  datatype Summary = Summary(
    results: seq<OpResult>,
    failed: set<Subject>,
    refused: set<Subject>,
    blocked: set<Subject>,
    incomplete: set<Subject>)
  {
    predicate Clean() { failed == {} && refused == {} && incomplete == {} }
  }

  datatype Event =
    | StepStarted(id: Id)
    | HookRun(id: Id, phase: Phase)
    | Wired(id: Id, ok: bool)              // declarative wiring applied or reverted
    | StepFinished(subject: Subject, status: Status)
  {
    /** Something is done to the machine. */
    predicate Acts() { HookRun? || Wired? }
  }

  /** Everything the run cannot decide itself. Hooks, guards and wiring may answer differently
      at every moment (the length of the trace so far); `probe` is the Detect answer during the
      gates, where detect hooks must be read-only. */
  datatype Env = Env(
    gpuPresent: bool,
    probe: Id -> HookStatus,
    hook: (nat, Id, Phase) -> HookStatus,
    guardRefuses: (nat, Id, Phase) -> bool,
    wiringFails: (nat, Id) -> bool,
    wiringPresent: (nat, Id) -> bool)

  predicate HasHook(c: Component, phase: Phase) {
    match phase
    case Detect => c.hasDetect
    case Install => c.hasInstall
    case Verify => c.hasVerify
    case Fix => c.hasFix
    case Remove => c.hasRemove
  }

  // ------------------------------------------------------ target ordering

  ghost function UnionOfClosures(m: Graph, targets: seq<Id>): set<Id> {
    if targets == [] then {} else UnionOfClosures(m, targets[..|targets| - 1]) + ClosureOf(m, targets[|targets| - 1])
  }

  /** A target, or something a target requires through any chain. */
  ghost predicate NeededFor(m: Graph, targets: seq<Id>, x: Id) {
    exists t :: t in targets && (t == x || Requires(m, t, x))
  }

  lemma {:induction false} ClosuresMean(m: Graph, targets: seq<Id>)
    requires forall t :: t in targets ==> t in m
    ensures forall x :: x in UnionOfClosures(m, targets) <==> x in m && NeededFor(m, targets, x)
  {
    if targets != [] {
      var n := |targets| - 1;
      ClosuresMean(m, targets[..n]);
      forall x ensures NeededFor(m, targets, x) <==> NeededFor(m, targets[..n], x) || targets[n] == x || Requires(m, targets[n], x) {
        NeededForOneMore(m, targets, x);
      }
    }
  }

  lemma NeededForOneMore(m: Graph, targets: seq<Id>, x: Id)
    requires targets != []
    ensures var n := |targets| - 1;
      NeededFor(m, targets, x) <==> NeededFor(m, targets[..n], x) || targets[n] == x || Requires(m, targets[n], x)
  {
    hide Requires;
    var n := |targets| - 1;
    assert targets == targets[..n] + [targets[n]];
    if NeededFor(m, targets, x) {
      var t :| t in targets && (t == x || Requires(m, t, x));
      assert t in targets[..n] || t == targets[n];
    }
    if NeededFor(m, targets[..n], x) {
      var t :| t in targets[..n] && (t == x || Requires(m, t, x));
      assert t in targets;
    }
    assert targets[n] in targets;
  }

  lemma ClosureHasNeeds(m: Graph, id: Id, c: Id, d: Id)
    requires c in ClosureOf(m, id) && d in m[c].needs && d in m
    ensures d in ClosureOf(m, id)
  {
    RequiresDirect(m, c, d);
    if c != id { RequiresTransitive(m, id, c, d); }
  }

  /** `v` lists each prerequisite of `cl[..j]` and of itself before it is needed. */
  ghost predicate Merged(m: Graph, v: seq<Id>, had: set<Id>, cl: seq<Id>, j: nat)
    requires j <= |cl|
  {
    NoDup(v) && OrderedPrefix(m, v) && forall x :: x in v <==> x in had || x in cl[..j]
  }

  lemma MergeNext(reg: Registry, v: seq<Id>, had: set<Id>, id: Id, cl: seq<Id>, j: nat)
    requires reg.Loaded() && cl == Select(reg.order, ClosureOf(reg.comps, id)) && j < |cl|
    requires Merged(reg.comps, v, had, cl, j)
    ensures cl[j] in v ==> Merged(reg.comps, v, had, cl, j + 1)
    ensures cl[j] !in v ==> Merged(reg.comps, v + [cl[j]], had, cl, j + 1)
  {
    var m, c := reg.comps, cl[j];
    TakeOneMore(cl, j);
    SelectKeepsOrder(reg.order, ClosureOf(m, id));
    assert c in cl;
    if c !in v {
      forall d | d in Deps(m, c) ensures d in v {
        NeedsComeFirst(reg, c, d);
        ClosureHasNeeds(m, id, c, d);
        assert d in cl;
        var i :| 0 <= i < |cl| && cl[i] == d;
        assert i < j;
        assert cl[..j][i] == d;
      }
      OrderedPrefixGrows(m, v, c);
    }
  }

  /** Install and fix order: the closures of the targets, one after the other, each component once. */
  method ForwardOrder(reg: Registry, targets: seq<Id>) returns (r: Result<seq<Id>, LoadError>)
    requires reg.Loaded()
    ensures r.Failure? <==> exists t :: t in targets && t !in reg.comps
    ensures r.Success? ==> NoDup(r.value) && OrderedPrefix(reg.comps, r.value)
    ensures r.Success? ==> ToSet(r.value) == UnionOfClosures(reg.comps, targets)
  {
    hide Topological, NoDup, OrderedPrefix, ClosureOf;
    var v: seq<Id> := [];
    EmptyOrder(reg.comps);
    for i := 0 to |targets|
      invariant NoDup(v) && OrderedPrefix(reg.comps, v)
      invariant forall x :: x in v <==> x in UnionOfClosures(reg.comps, targets[..i])
      invariant forall t :: t in targets[..i] ==> t in reg.comps
    {
      TakeOneMore(targets, i);
      var cl := Closure(reg, targets[i]);
      if cl.Failure? {
        assert targets[i] in targets;
        return Failure(cl.error);
      }
      var c := cl.value;
      ghost var had := UnionOfClosures(reg.comps, targets[..i]);
      for j := 0 to |c|
        invariant Merged(reg.comps, v, had, c, j)
      {
        MergeNext(reg, v, had, targets[i], c, j);
        if c[j] !in v {
          v := v + [c[j]];
        }
      }
      MergeDone(reg, v, targets, i, c);
    }
    assert targets[..|targets|] == targets;
    return Success(v);
  }

  lemma EmptyOrder(m: Graph)
    ensures NoDup<Id>([]) && OrderedPrefix(m, [])
  {
  }

  lemma MergeDone(reg: Registry, v: seq<Id>, targets: seq<Id>, i: nat, c: seq<Id>)
    requires reg.Loaded() && i < |targets|
    requires c == Select(reg.order, ClosureOf(reg.comps, targets[i]))
    requires Merged(reg.comps, v, UnionOfClosures(reg.comps, targets[..i]), c, |c|)
    ensures NoDup(v) && OrderedPrefix(reg.comps, v)
    ensures forall x :: x in v <==> x in UnionOfClosures(reg.comps, targets[..i + 1])
  {
    TakeOneMore(targets, i);
    assert targets[..i + 1][..i] == targets[..i];
    assert c[..|c|] == c;
  }

  // ----------------------------------------------------------- reset gates

  /** A component whose Detect probe succeeds during the gates. */
  predicate Live(reg: Registry, env: Env, id: Id) {
    && id in reg.comps
    && (reg.comps[id].gpuRequired ==> env.gpuPresent)
    && reg.comps[id].hasDetect
    && env.probe(id) == Ok
  }

  /** The live reverse-dependents of `t` that the user did not name. */
  ghost function Protected(reg: Registry, env: Env, targets: seq<Id>, t: Id): set<Id> {
    set r | r in ReverseDependentsOf(reg.comps, t) && Live(reg, env, r) && r !in targets
  }

  ghost function Folded(reg: Registry, env: Env, targets: seq<Id>): set<Id> {
    set r | r in reg.comps && ProtectsSome(reg, env, targets, targets, r)
  }

  ghost predicate ProtectsSome(reg: Registry, env: Env, targets: seq<Id>, some: seq<Id>, r: Id) {
    exists t :: t in some && r in Protected(reg, env, targets, t)
  }

  ghost function RefusedTargets(reg: Registry, env: Env, targets: seq<Id>): set<Id> {
    set t | t in targets && Protected(reg, env, targets, t) != {}
  }

  /** Something that is detected now, and not to be reset itself, requires `t`. */
  ghost predicate NeededByOthers(reg: Registry, env: Env, targets: seq<Id>, t: Id) {
    exists y ::
      && y in reg.comps && y !in targets && Requires(reg.comps, y, t)
      && reg.comps[y].hasDetect && (reg.comps[y].gpuRequired ==> env.gpuPresent) && env.probe(y) == Ok
  }

  lemma ProtectedMeans(reg: Registry, env: Env, targets: seq<Id>, t: Id)
    ensures Protected(reg, env, targets, t) != {} <==> NeededByOthers(reg, env, targets, t)
  {
    if y :| y in Protected(reg, env, targets, t) { assert Live(reg, env, y); }
    if NeededByOthers(reg, env, targets, t) {
      var y :|
        && y in reg.comps && y !in targets && Requires(reg.comps, y, t)
        && reg.comps[y].hasDetect && (reg.comps[y].gpuRequired ==> env.gpuPresent) && env.probe(y) == Ok;
      assert y in Protected(reg, env, targets, t);
    }
  }

  /** What a reset with explicit targets will tear down. */
  ghost function RemovalSet(reg: Registry, env: Env, plan: Plan): set<Id> {
    if plan.targets == [] then reg.comps.Keys
    else if plan.gates.cascade then ToSet(plan.targets) + Folded(reg, env, plan.targets)
    else ToSet(plan.targets) - RefusedTargets(reg, env, plan.targets)
  }

  /** No live component outside `s` requires, even indirectly, something in `s`. */
  ghost predicate LiveClosed(reg: Registry, env: Env, s: set<Id>) {
    forall x, y :: x in s && Live(reg, env, y) && Requires(reg.comps, y, x) ==> y in s
  }

  /** A refused target takes down every target it requires: what protects it protects them. */
  lemma RefusalSpreads(reg: Registry, env: Env, ts: seq<Id>, x: Id, y: Id)
    requires y in RefusedTargets(reg, env, ts) && x in ts && Requires(reg.comps, y, x)
    ensures x in RefusedTargets(reg, env, ts)
  {
    var z :| z in Protected(reg, env, ts, y);
    RequiresTransitive(reg.comps, z, y, x);
    assert z in Protected(reg, env, ts, x);
  }

  /** The set of components a reset is to remove holds, with each, all live components that require it. Whether
      their removal succeeds is another matter: see `Teardown`. */
  lemma RemovalIsLiveClosed(reg: Registry, env: Env, plan: Plan)
    ensures LiveClosed(reg, env, RemovalSet(reg, env, plan))
  {
    var m, ts, s := reg.comps, plan.targets, RemovalSet(reg, env, plan);
    forall x, y | x in s && Live(reg, env, y) && Requires(m, y, x) ensures y in s {
      if ts != [] && y !in ts {
        if x in ts {
          assert y in Protected(reg, env, ts, x);
        } else {
          var t :| t in ts && x in Protected(reg, env, ts, t);
          RequiresTransitive(m, y, x, t);
          assert y in Protected(reg, env, ts, t);
        }
      } else if ts != [] && !plan.gates.cascade && y in RefusedTargets(reg, env, ts) {
        RefusalSpreads(reg, env, ts, x, y);
      }
    }
  }

  /** Without `--cascade` the removal set is the largest live-closed part of the targets;
      with it, the smallest live-closed set that holds all the targets. */
  lemma RemovalIsOptimal(reg: Registry, env: Env, plan: Plan, s: set<Id>)
    requires plan.targets != [] && LiveClosed(reg, env, s)
    ensures !plan.gates.cascade && s <= ToSet(plan.targets) ==> s <= RemovalSet(reg, env, plan) <= ToSet(plan.targets)
    ensures plan.gates.cascade && ToSet(plan.targets) <= s ==> ToSet(plan.targets) <= RemovalSet(reg, env, plan) <= s
  {
    var ts := plan.targets;
    if !plan.gates.cascade && s <= ToSet(ts) {
      forall x, y | x in s ensures y !in Protected(reg, env, ts, x) {
        assert y in s ==> y in ToSet(ts);
      }
    }
    if plan.gates.cascade && ToSet(ts) <= s {
      forall y | y in Folded(reg, env, ts) ensures y in s {
        var t :| t in ts && y in Protected(reg, env, ts, t);
        assert t in ToSet(ts);
      }
    }
  }

  /** Nothing is torn down before a component that still requires it. */
  ghost predicate DependentsFirst(m: Graph, order: seq<Id>) {
    forall i, j :: 0 <= i < j < |order| ==> !Requires(m, order[j], order[i])
  }

  lemma TeardownIsDependentsFirst(reg: Registry, s: set<Id>)
    requires reg.Loaded()
    ensures var order := Reversed(Select(reg.order, s)); DependentsFirst(reg.comps, order) && NoDup(order)
  {
    SelectKeepsOrder(reg.order, s);
    var sel := Select(reg.order, s);
    var order := Reversed(sel);
    forall i, j | 0 <= i < j < |order| ensures !Requires(reg.comps, order[j], order[i]) && order[i] != order[j] {
      assert Pos(reg.order, sel[|sel| - 1 - j]) < Pos(reg.order, sel[|sel| - 1 - i]);
      if Requires(reg.comps, order[j], order[i]) {
        RequiresDescends(reg, order[j], order[i]);
      }
    }
  }

  datatype GateVerdict =
    | UnknownTarget(id: Id)
    | RefusedWholeReset
    | RefusedCascade
    | Proceed(order: seq<Id>, refused: set<Id>)

  method SelectMembers(order: seq<Id>, keep: set<Id>) returns (out: seq<Id>)
    ensures out == Select(order, keep)
  {
    out := [];
    for i := 0 to |order|
      invariant out == Select(order[..i], keep)
    {
      assert order[..i + 1][..i] == order[..i];
      if order[i] in keep {
        out := out + [order[i]];
      }
    }
    assert order[..|order|] == order;
  }

  /** Probes the reverse-dependents of one target: fold them in, or refuse the target. */
  method ProbeTarget(reg: Registry, env: Env, plan: Plan, t: Id, fold: set<Id>, refuse: set<Id>)
    returns (fold': set<Id>, refuse': set<Id>)
    requires reg.Loaded()
    ensures plan.gates.cascade ==> fold' == fold + Protected(reg, env, plan.targets, t) && refuse' == refuse
    ensures !plan.gates.cascade ==> fold' == fold
    ensures !plan.gates.cascade ==> refuse' == refuse + if Protected(reg, env, plan.targets, t) != {} then {t} else {}
  {
    hide Topological, ReverseDependentsOf;
    var ts := plan.targets;
    fold', refuse' := fold, refuse;
    ghost var hit: set<Id> := {};
    var rdeps := ReverseDependents(reg, t);
    for j := 0 to |rdeps|
      invariant hit <= Protected(reg, env, ts, t)
      invariant forall r :: r in Protected(reg, env, ts, t) && r in rdeps[..j] ==> r in hit
      invariant plan.gates.cascade ==> fold' == fold + hit && refuse' == refuse
      invariant !plan.gates.cascade ==> fold' == fold && refuse' == refuse + if hit != {} then {t} else {}
    {
      TakeOneMore(rdeps, j);
      var rdep := rdeps[j];
      assert rdep in rdeps;
      if Live(reg, env, rdep) && rdep !in ts {
        hit := hit + {rdep};
        if plan.gates.cascade {
          fold' := fold' + {rdep};
        } else {
          refuse' := refuse' + {t};
        }
      }
    }
    assert rdeps[..|rdeps|] == rdeps;
    ProtectedAmong(reg, env, ts, t, rdeps);
    assert hit == Protected(reg, env, ts, t);
  }

  method ProbeDependents(reg: Registry, env: Env, plan: Plan) returns (fold: set<Id>, refuse: set<Id>)
    requires reg.Loaded() && forall t :: t in plan.targets ==> t in reg.comps
    ensures fold == if plan.gates.cascade then Folded(reg, env, plan.targets) else {}
    ensures refuse == if plan.gates.cascade then {} else RefusedTargets(reg, env, plan.targets)
  {
    hide Topological, Protected, Live;
    var ts := plan.targets;
    fold, refuse := {}, {};
    for i := 0 to |ts|
      invariant forall r :: r in fold <==> plan.gates.cascade && ProtectsSome(reg, env, ts, ts[..i], r)
      invariant forall t :: t in refuse <==> t in ts[..i] && !plan.gates.cascade && Protected(reg, env, ts, t) != {}
    {
      TakeOneMore(ts, i);
      fold, refuse := ProbeTarget(reg, env, plan, ts[i], fold, refuse);
    }
    assert ts[..|ts|] == ts;
    ProtectedAreComponents(reg, env, ts);
  }

  lemma ProtectedAreComponents(reg: Registry, env: Env, ts: seq<Id>)
    ensures forall t, r :: r in Protected(reg, env, ts, t) ==> r in reg.comps
  {
  }

  lemma ProtectedAmong(reg: Registry, env: Env, ts: seq<Id>, t: Id, rdeps: seq<Id>)
    requires reg.Loaded() && rdeps == Select(reg.order, ReverseDependentsOf(reg.comps, t))
    ensures forall r :: r in Protected(reg, env, ts, t) ==> r in rdeps && r in reg.comps
  {
  }

  /** The reset gates, evaluated once before anything is removed. */
  method RemovalOrder(reg: Registry, env: Env, plan: Plan) returns (v: GateVerdict)
    requires reg.Loaded()
    ensures v.UnknownTarget? <==> exists t :: t in plan.targets && t !in reg.comps
    ensures v.RefusedWholeReset? <==> plan.targets == [] && !(plan.gates.all && plan.gates.confirm)
    ensures v.RefusedCascade? <==>
      (plan.targets != [] && !v.UnknownTarget? && plan.gates.cascade
       && Folded(reg, env, plan.targets) != {} && !plan.gates.confirm && !plan.dryRun)
    ensures v.Proceed? ==> v.order == Reversed(Select(reg.order, RemovalSet(reg, env, plan)))
    ensures v.Proceed? ==> v.refused == if plan.targets == [] || plan.gates.cascade then {} else RefusedTargets(reg, env, plan.targets)
  {
    hide Topological, Protected;
    var ts := plan.targets;
    for i := 0 to |ts|
      invariant forall t :: t in ts[..i] ==> t in reg.comps
    {
      if ts[i] !in reg.comps {
        assert ts[i] in ts;
        return UnknownTarget(ts[i]);
      }
      TakeOneMore(ts, i);
    }
    assert ts[..|ts|] == ts;
    if ts == [] {
      if !(plan.gates.all && plan.gates.confirm) {
        return RefusedWholeReset;
      }
      var all := SelectMembers(reg.order, reg.comps.Keys);
      return Proceed(Reversed(all), {});
    }
    var named: set<Id> := set t | t in ts;
    var fold, refuse := ProbeDependents(reg, env, plan);
    if fold != {} && !plan.gates.confirm && !plan.dryRun {
      return RefusedCascade;
    }
    var keep := named;
    if refuse != {} || fold != {} {
      keep := named - refuse + fold;
    }
    assert keep == RemovalSet(reg, env, plan);
    var sel := SelectMembers(reg.order, keep);
    return Proceed(Reversed(sel), refuse);
  }

  // ---------------------------------------------------------- one phase

  /** `run_phase` at moment `at`: the gpu skip, the fail-closed guard, a missing hook, or the hook itself. */
  function PhaseStatus(env: Env, id: Id, c: Component, phase: Phase, at: nat): Status {
    if c.gpuRequired && !env.gpuPresent then Skipped
    else if c.destructive && (phase == Remove || phase == Fix) && env.guardRefuses(at, id, phase) then Refused
    else if !HasHook(c, phase) then NoHook
    else env.hook(at, id, phase)
  }

  function PhaseEvents(env: Env, id: Id, c: Component, phase: Phase, at: nat): seq<Event> {
    if c.gpuRequired && !env.gpuPresent then []
    else if c.destructive && (phase == Remove || phase == Fix) && env.guardRefuses(at, id, phase) then []
    else if !HasHook(c, phase) then []
    else [HookRun(id, phase)]
  }

  /** `apply_wiring` and `revert_wiring`: nothing to do, or done with or without failures. */
  function WiringEvents(env: Env, id: Id, c: Component, at: nat): seq<Event> {
    if c.HasWiring() then [Wired(id, !env.wiringFails(at, id))] else []
  }

  // ----------------------------------------------------------- one step

  /** The rosters after `who` ended with status `st`. */
  function Rostered(sum: Summary, who: Subject, st: Status): Summary {
    match st
    case Failed => sum.(failed := sum.failed + {who})
    case Refused => sum.(refused := sum.refused + {who})
    case SkippedBlocked => sum.(blocked := sum.blocked + {who})
    case Incomplete => sum.(incomplete := sum.incomplete + {who})
    case _ => sum
  }

  function Record(sum: Summary, who: Subject, st: Status): Summary {
    Rostered(sum, who, st).(results := sum.results + [OpResult(who, st)])
  }

  predicate Blocked(plan: Plan, c: Component, failed: set<Id>) {
    (plan.phase == Install || plan.phase == Fix) && exists d | d in c.needs :: d in failed
  }

  ghost predicate AllHooksOf(id: Id, events: seq<Event>) {
    forall i :: 0 <= i < |events| ==> events[i].Acts() && events[i].id == id
  }

  // ---- what one step comes to, given the moment it starts

  /** Is the step decided before acting? An install brings only the wiring of what is present in line; a fix acts
      only on what is installed and broken, and on system wiring only when confirmed. */
  function TriageOf(env: Env, plan: Plan, id: Id, c: Component, at: nat): (Option<Status>, seq<Event>) {
    if plan.dryRun then (None, [])
    else match plan.phase
      case Install =>
        if !c.hasDetect then (None, [])
        else
          var seen := PhaseEvents(env, id, c, Detect, at);
          if PhaseStatus(env, id, c, Detect, at) == Ok then (Some(Skipped), seen + WiringEvents(env, id, c, at + |seen|))
          else (None, seen)
      case Fix =>
        var seen := if c.hasDetect then PhaseEvents(env, id, c, Detect, at) else [];
        if c.hasDetect && PhaseStatus(env, id, c, Detect, at) != Ok then (Some(Skipped), seen)
        else
          var at2 := at + |seen|;
          var checked := seen + if c.hasVerify then PhaseEvents(env, id, c, Verify, at2) else [];
          var healthy := !c.hasVerify || PhaseStatus(env, id, c, Verify, at2) == Ok;
          if healthy && (!c.ProbedWiring() || env.wiringPresent(at + |checked|, id)) then (Some(Skipped), checked)
          else if c.systemWiring && !plan.gates.confirm then (Some(Refused), checked)
          else (None, checked)
      case _ => (None, [])
  }

  /** After an acting hook: a removed component must no longer be detected, a fixed one must verify. */
  function ReverifyOf(env: Env, plan: Plan, id: Id, c: Component, st: Status, at: nat): (Status, seq<Event>) {
    if plan.phase == Remove && c.hasDetect then
      (if PhaseStatus(env, id, c, Detect, at) == Ok then Incomplete else st, PhaseEvents(env, id, c, Detect, at))
    else if plan.phase == Fix && c.hasVerify then
      (if PhaseStatus(env, id, c, Verify, at) == Ok then st else Incomplete, PhaseEvents(env, id, c, Verify, at))
    else (st, [])
  }

  predicate Wires(plan: Plan) { plan.phase == Install || plan.phase == Remove || plan.phase == Fix }

  function ActOf(env: Env, plan: Plan, id: Id, c: Component, at: nat): (Status, seq<Event>) {
    var st, events := PhaseStatus(env, id, c, plan.phase, at), PhaseEvents(env, id, c, plan.phase, at);
    if plan.dryRun || (st != Ok && st != NoHook) then (st, events)
    else
      var wired := if Wires(plan) then WiringEvents(env, id, c, at + |events|) else [];
      var (st', more) := ReverifyOf(env, plan, id, c, if Wired(id, false) in wired then Incomplete else st, at + |events| + |wired|);
      (st', events + wired + more)
  }

  function StepOf(env: Env, plan: Plan, id: Id, c: Component, failed: set<Id>, at: nat): (Status, seq<Event>) {
    if Blocked(plan, c, failed) then (SkippedBlocked, [])
    else
      var (decided, probes) := TriageOf(env, plan, id, c, at);
      if decided.Some? then (decided.value, probes)
      else
        var (st, events) := ActOf(env, plan, id, c, at + |probes|);
        (st, probes + events)
  }

  /** The hook of this phase would be dispatched now: the GPU is there if needed, no guard refuses, and the
      component has one. */
  predicate CanRun(env: Env, id: Id, c: Component, phase: Phase, at: nat) {
    && !(c.gpuRequired && !env.gpuPresent)
    && !(c.destructive && (phase == Remove || phase == Fix) && env.guardRefuses(at, id, phase))
    && HasHook(c, phase)
  }

  /** A component's probes, whose answers decide the triage. */
  predicate Answers(env: Env, id: Id, c: Component, phase: Phase, at: nat) {
    CanRun(env, id, c, phase, at) && env.hook(at, id, phase) == Ok
  }

  /** The install hook is dispatched exactly when nothing blocks the component, it is not already present
      (or this is a dry run), and the hook can run. */
  lemma InstallDispatch(env: Env, plan: Plan, id: Id, c: Component, failed: set<Id>, at: nat)
    requires plan.phase == Install
    ensures HookRun(id, Install) in StepOf(env, plan, id, c, failed, at).1 <==>
      && !Blocked(plan, c, failed)
      && (plan.dryRun || !Answers(env, id, c, Detect, at))
      && CanRun(env, id, c, Install, at + |TriageOf(env, plan, id, c, at).1|)
  {
  }

  /** The remove hook is dispatched exactly when it can run: a removal is never blocked or triaged away. */
  lemma RemoveDispatch(env: Env, plan: Plan, id: Id, c: Component, failed: set<Id>, at: nat)
    requires plan.phase == Remove
    ensures HookRun(id, Remove) in StepOf(env, plan, id, c, failed, at).1 <==> CanRun(env, id, c, Remove, at)
  {
  }

  /** The fix hook is dispatched exactly when nothing blocks the component, it is installed and then found
      unhealthy or short of wiring (or this is a dry run), its system wiring is confirmed, and it can run. */
  lemma FixDispatch(env: Env, plan: Plan, id: Id, c: Component, failed: set<Id>, at: nat)
    requires plan.phase == Fix
    ensures var probes := TriageOf(env, plan, id, c, at).1;
      var seen := |if c.hasDetect then PhaseEvents(env, id, c, Detect, at) else []|;
      HookRun(id, Fix) in StepOf(env, plan, id, c, failed, at).1 <==>
      && !Blocked(plan, c, failed)
      && (plan.dryRun
          || (&& (c.hasDetect ==> Answers(env, id, c, Detect, at))
              && ((c.hasVerify && !Answers(env, id, c, Verify, at + seen))
                  || (c.ProbedWiring() && !env.wiringPresent(at + |probes|, id)))
              && (c.systemWiring ==> plan.gates.confirm)))
      && CanRun(env, id, c, Fix, at + |probes|)
  {
  }

  /** A step of a reset or a fix ends well only when the check after its last action hook was satisfied: no
      longer detected, or verified. */
  lemma EndsWellOnlyChecked(env: Env, plan: Plan, id: Id, c: Component, failed: set<Id>, at: nat) returns (n: nat)
    requires !plan.dryRun && (plan.phase == Remove || plan.phase == Fix)
    requires StepOf(env, plan, id, c, failed, at).0 == Ok || StepOf(env, plan, id, c, failed, at).0 == NoHook
    ensures var events := StepOf(env, plan, id, c, failed, at).1;
      n <= |events| && forall i :: n <= i < |events| ==> events[i] != HookRun(id, plan.phase)
    ensures plan.phase == Remove && c.hasDetect ==> !Answers(env, id, c, Detect, at + n)
    ensures plan.phase == Fix && c.hasVerify ==> Answers(env, id, c, Verify, at + n)
  {
    hide TriageOf, ActOf, PhaseEvents, WiringEvents;
    var probes, events := TriageOf(env, plan, id, c, at).1, StepOf(env, plan, id, c, failed, at).1;
    TriageNeverEndsWell(env, plan, id, c, at);
    ActEndsChecked(env, plan, id, c, at + |probes|);
    n := |probes| + |ActionEvents(env, plan, id, c, at + |probes|)|;
    var after := ActOf(env, plan, id, c, at + |probes|).1;
    assert events == probes + after;
    forall i | n <= i < |events| ensures events[i] != HookRun(id, plan.phase) { assert events[i] == after[i - |probes|]; }
  }

  /** The action hook and the wiring. */
  function ActionEvents(env: Env, plan: Plan, id: Id, c: Component, at: nat): seq<Event> {
    var events := PhaseEvents(env, id, c, plan.phase, at);
    events + WiringEvents(env, id, c, at + |events|)
  }

  lemma TriageNeverEndsWell(env: Env, plan: Plan, id: Id, c: Component, at: nat)
    ensures TriageOf(env, plan, id, c, at).0 != Some(Ok) && TriageOf(env, plan, id, c, at).0 != Some(NoHook)
  {
    hide PhaseEvents, PhaseStatus, WiringEvents;
  }

  lemma ActEndsChecked(env: Env, plan: Plan, id: Id, c: Component, at: nat)
    requires !plan.dryRun && (plan.phase == Remove || plan.phase == Fix)
    requires ActOf(env, plan, id, c, at).0 == Ok || ActOf(env, plan, id, c, at).0 == NoHook
    ensures var n, events := |ActionEvents(env, plan, id, c, at)|, ActOf(env, plan, id, c, at).1;
      && n <= |events| && (forall i :: n <= i < |events| ==> events[i] != HookRun(id, plan.phase))
      && (plan.phase == Remove && c.hasDetect ==> !Answers(env, id, c, Detect, at + n))
      && (plan.phase == Fix && c.hasVerify ==> Answers(env, id, c, Verify, at + n))
  {
    hide WiringEvents, ReverifyOf;
    var acted := ActionEvents(env, plan, id, c, at);
    var st, events := PhaseStatus(env, id, c, plan.phase, at), PhaseEvents(env, id, c, plan.phase, at);
    if st == Ok || st == NoHook {
      ReverifyChecks(env, plan, id, c, if Wired(id, false) in acted[|events|..] then Incomplete else st, at + |acted|);
      assert acted[|events|..] == WiringEvents(env, id, c, at + |events|);
      var more := ReverifyOf(env, plan, id, c, if Wired(id, false) in acted[|events|..] then Incomplete else st, at + |acted|).1;
      assert ActOf(env, plan, id, c, at).1 == acted + more;
      forall i | |acted| <= i < |acted + more| ensures (acted + more)[i] != HookRun(id, plan.phase) {
        assert (acted + more)[i] == more[i - |acted|] && more[i - |acted|] in more;
      }
    }
  }

  lemma ReverifyChecks(env: Env, plan: Plan, id: Id, c: Component, st: Status, at: nat)
    requires plan.phase == Remove || plan.phase == Fix
    ensures var (end, events) := ReverifyOf(env, plan, id, c, st, at);
      && (forall e :: e in events ==> e != HookRun(id, plan.phase))
      && (end == Ok || end == NoHook ==>
            && (plan.phase == Remove && c.hasDetect ==> !Answers(env, id, c, Detect, at))
            && (plan.phase == Fix && c.hasVerify ==> Answers(env, id, c, Verify, at)))
  {
  }

  /** In a dry run the only hook ever dispatched is the one asked for, as a preview. */
  lemma DryRunOnlyPreviews(env: Env, plan: Plan, id: Id, c: Component, failed: set<Id>, at: nat)
    requires plan.dryRun
    ensures forall h :: h in StepOf(env, plan, id, c, failed, at).1 ==> h == HookRun(id, plan.phase)
  {
  }

  lemma PhaseHooks(env: Env, id: Id, c: Component, phase: Phase, at: nat)
    ensures AllHooksOf(id, PhaseEvents(env, id, c, phase, at)) && PhaseStatus(env, id, c, phase, at) != SkippedBlocked
  {
  }

  lemma HooksConcat(id: Id, a: seq<Event>, b: seq<Event>)
    requires AllHooksOf(id, a) && AllHooksOf(id, b)
    ensures AllHooksOf(id, a + b)
  {
  }

  lemma TriageHooks(env: Env, plan: Plan, id: Id, c: Component, at: nat)
    ensures AllHooksOf(id, TriageOf(env, plan, id, c, at).1)
  {
    hide PhaseStatus, PhaseEvents, WiringEvents, AllHooksOf;
    var seen := if c.hasDetect then PhaseEvents(env, id, c, Detect, at) else [];
    NoHooks(id);
    PhaseHooks(env, id, c, Detect, at);
    WiringHooks(env, id, c, at + |seen|);
    HooksConcat(id, seen, WiringEvents(env, id, c, at + |seen|));
    PhaseHooks(env, id, c, Verify, at + |seen|);
    HooksConcat(id, seen, if c.hasVerify then PhaseEvents(env, id, c, Verify, at + |seen|) else []);
  }

  lemma NoHooks(id: Id)
    ensures AllHooksOf(id, [])
  {
  }

  lemma WiringHooks(env: Env, id: Id, c: Component, at: nat)
    ensures AllHooksOf(id, WiringEvents(env, id, c, at))
  {
  }

  lemma ActHooks(env: Env, plan: Plan, id: Id, c: Component, at: nat)
    ensures AllHooksOf(id, ActOf(env, plan, id, c, at).1) && ActOf(env, plan, id, c, at).0 != SkippedBlocked
  {
    hide PhaseStatus, PhaseEvents, WiringEvents, AllHooksOf;
    var events := PhaseEvents(env, id, c, plan.phase, at);
    var wired := if Wires(plan) then WiringEvents(env, id, c, at + |events|) else [];
    var now := at + |events| + |wired|;
    NoHooks(id);
    PhaseHooks(env, id, c, plan.phase, at);
    WiringHooks(env, id, c, at + |events|);
    PhaseHooks(env, id, c, Detect, now);
    PhaseHooks(env, id, c, Verify, now);
    HooksConcat(id, events, wired);
    HooksConcat(id, events + wired, []);
    HooksConcat(id, events + wired, PhaseEvents(env, id, c, Detect, now));
    HooksConcat(id, events + wired, PhaseEvents(env, id, c, Verify, now));
  }

  lemma StepHooks(env: Env, plan: Plan, id: Id, c: Component, failed: set<Id>, at: nat)
    ensures AllHooksOf(id, StepOf(env, plan, id, c, failed, at).1)
    ensures StepOf(env, plan, id, c, failed, at).0 == SkippedBlocked <==> Blocked(plan, c, failed)
    ensures Blocked(plan, c, failed) ==> StepOf(env, plan, id, c, failed, at).1 == []
  {
    hide TriageOf, ActOf, AllHooksOf, Blocked;
    NoHooks(id);
    var probes := TriageOf(env, plan, id, c, at).1;
    TriageHooks(env, plan, id, c, at);
    TriageSkipsOrRefuses(env, plan, id, c, at);
    ActHooks(env, plan, id, c, at + |probes|);
    HooksConcat(id, probes, ActOf(env, plan, id, c, at + |probes|).1);
  }

  // ---- the step as the program runs it

  method Triage(env: Env, plan: Plan, id: Id, c: Component, at: nat) returns (decided: Option<Status>, probes: seq<Event>)
    ensures (decided, probes) == TriageOf(env, plan, id, c, at)
  {
    hide PhaseStatus, PhaseEvents, WiringEvents;
    probes := [];
    if plan.phase == Install && !plan.dryRun {
      if c.hasDetect {
        var st := PhaseStatus(env, id, c, Detect, at);
        probes := PhaseEvents(env, id, c, Detect, at);
        if st == Ok {
          var wired := WiringEvents(env, id, c, at + |probes|);
          return Some(Skipped), probes + wired;
        }
      }
    }
    if plan.phase == Fix && !plan.dryRun {
      if c.hasDetect {
        var st := PhaseStatus(env, id, c, Detect, at);
        probes := PhaseEvents(env, id, c, Detect, at);
        if st != Ok {
          return Some(Skipped), probes;
        }
      }
      var healthy := true;
      if c.hasVerify {
        var now := at + |probes|;
        healthy := PhaseStatus(env, id, c, Verify, now) == Ok;
        probes := probes + PhaseEvents(env, id, c, Verify, now);
      } else {
        assert probes + [] == probes;
      }
      if healthy && (!c.ProbedWiring() || env.wiringPresent(at + |probes|, id)) {
        return Some(Skipped), probes;
      }
      if c.systemWiring && !plan.gates.confirm {
        return Some(Refused), probes;
      }
    }
    decided := None;
  }

  method Reverify(env: Env, plan: Plan, id: Id, c: Component, st: Status, sum: Summary, at: nat)
    returns (st': Status, sum': Summary, probes: seq<Event>)
    requires sum == Rostered(sum, Comp(id), st) && (st == Ok || st == NoHook || st == Incomplete)
    ensures (st', probes) == ReverifyOf(env, plan, id, c, st, at)
    ensures sum' == Rostered(sum, Comp(id), st') && (st' == st || st' == Incomplete)
  {
    hide PhaseStatus, PhaseEvents;
    st', sum', probes := st, sum, [];
    if plan.phase == Remove && c.hasDetect {
      probes := PhaseEvents(env, id, c, Detect, at);
      if PhaseStatus(env, id, c, Detect, at) == Ok {
        st', sum' := Incomplete, sum.(incomplete := sum.incomplete + {Comp(id)});
      }
    }
    if plan.phase == Fix && c.hasVerify {
      probes := PhaseEvents(env, id, c, Verify, at);
      if PhaseStatus(env, id, c, Verify, at) != Ok {
        st', sum' := Incomplete, sum.(incomplete := sum.incomplete + {Comp(id)});
      }
    }
  }

  /** The action hook, its wiring, and the re-verification. */
  method Act(env: Env, plan: Plan, id: Id, c: Component, sum: Summary, at: nat)
    returns (st: Status, sum': Summary, hooks: seq<Event>)
    ensures (st, hooks) == ActOf(env, plan, id, c, at)
    ensures st != SkippedBlocked && sum' == Rostered(sum, Comp(id), st)
  {
    hide PhaseEvents, ReverifyOf, WiringEvents;
    sum' := sum;
    st := PhaseStatus(env, id, c, plan.phase, at);
    hooks := PhaseEvents(env, id, c, plan.phase, at);
    if st == Failed {
      sum' := sum.(failed := sum.failed + {Comp(id)});
    } else if st == Refused {
      sum' := sum.(refused := sum.refused + {Comp(id)});
    }
    if !plan.dryRun && (st == Ok || st == NoHook) {
      var wired: seq<Event> := [];
      if plan.phase == Install || plan.phase == Remove || plan.phase == Fix {
        wired := WiringEvents(env, id, c, at + |hooks|);
        if Wired(id, false) in wired {
          st, sum' := Incomplete, sum.(incomplete := sum.incomplete + {Comp(id)});
        }
      }
      var more;
      st, sum', more := Reverify(env, plan, id, c, st, sum', at + |hooks| + |wired|);
      hooks := hooks + wired + more;
    }
  }

  /** One component's step: its dependency gate, triage, action and result. */
  method RunStep(env: Env, plan: Plan, id: Id, c: Component, failed: set<Id>, sum: Summary, trace: seq<Event>)
    returns (st: Status, sum': Summary, trace': seq<Event>)
    ensures st == StepOf(env, plan, id, c, failed, |trace| + 1).0 && sum' == Record(sum, Comp(id), st)
    ensures trace' == trace + StepEvents(id, StepOf(env, plan, id, c, failed, |trace| + 1).1, st)
  {
    hide PhaseStatus, PhaseEvents, TriageOf, ActOf, Blocked;
    sum' := sum;
    var hooks: seq<Event> := [];
    if Blocked(plan, c, failed) {
      st, sum' := SkippedBlocked, sum.(blocked := sum.blocked + {Comp(id)});
    } else {
      var decided, probes := Triage(env, plan, id, c, |trace| + 1);
      hooks := probes;
      if decided.Some? {
        st := decided.value;
        TriageSkipsOrRefuses(env, plan, id, c, |trace| + 1);
        if st == Refused {
          sum' := sum.(refused := sum.refused + {Comp(id)});
        }
      } else {
        var acted;
        st, sum', acted := Act(env, plan, id, c, sum', |trace| + 1 + |probes|);
        hooks := hooks + acted;
      }
    }
    sum' := sum'.(results := sum'.results + [OpResult(Comp(id), st)]);
    trace' := trace + [StepStarted(id)];
    trace' := trace' + hooks;
    trace' := trace' + [StepFinished(Comp(id), st)];
  }

  lemma TriageSkipsOrRefuses(env: Env, plan: Plan, id: Id, c: Component, at: nat)
    ensures var d := TriageOf(env, plan, id, c, at).0;
      d.Some? ==> d.value == Skipped || (d.value == Refused && plan.phase == Fix && !plan.gates.confirm)
  {
  }

  function StepEvents(id: Id, hooks: seq<Event>, st: Status): seq<Event> {
    [StepStarted(id)] + hooks + [StepFinished(Comp(id), st)]
  }

  // --------------------------------------------------------- the whole run

  ghost predicate Finished(trace: seq<Event>, id: Id) {
    exists st :: StepFinished(Comp(id), st) in trace
  }

  ghost predicate FailedIn(trace: seq<Event>, id: Id) {
    StepFinished(Comp(id), Failed) in trace
  }

  /** Every direct prerequisite's step has finished, and none of them failed. */
  ghost predicate Ready(m: Graph, trace: seq<Event>, id: Id) {
    id in m && forall d :: d in m[id].needs ==> Finished(trace, d) && !FailedIn(trace, d)
  }

  /** Whenever a hook is dispatched, its component is ready at that moment. */
  ghost predicate DispatchSafe(m: Graph, trace: seq<Event>) {
    trace == [] ||
    (var before, last := trace[..|trace| - 1], trace[|trace| - 1];
     DispatchSafe(m, before) && (last.Acts() ==> Ready(m, before, last.id)))
  }

  /** Each roster names exactly the subjects that have a result of that status. */
  ghost predicate RostersExact(sum: Summary) {
    forall who ::
      && (who in sum.failed <==> OpResult(who, Failed) in sum.results)
      && (who in sum.refused <==> OpResult(who, Refused) in sum.results)
      && (who in sum.blocked <==> OpResult(who, SkippedBlocked) in sum.results)
      && (who in sum.incomplete <==> OpResult(who, Incomplete) in sum.results)
  }

  lemma RecordIsExact(sum: Summary, who: Subject, st: Status)
    requires RostersExact(sum)
    ensures RostersExact(Record(sum, who, st))
  {
    var rec := Record(sum, who, st);
    forall w, t ensures OpResult(w, t) in rec.results <==> OpResult(w, t) in sum.results || (w == who && t == st) {
      assert rec.results[|sum.results|] == OpResult(who, st);
    }
  }

  /** `RunSummary::ok` holds exactly when no step failed, was refused or stayed incomplete. */
  lemma CleanIffNoBadResult(sum: Summary)
    requires RostersExact(sum)
    ensures sum.Clean() <==>
      forall k :: 0 <= k < |sum.results| ==> sum.results[k].status !in {Failed, Refused, Incomplete}
  {
    forall k | 0 <= k < |sum.results|
      ensures sum.Clean() ==> sum.results[k].status !in {Failed, Refused, Incomplete}
    {
      var r := sum.results[k];
      assert r == OpResult(r.subject, r.status) && r in sum.results;
    }
  }

  lemma {:induction false} HooksAreSafe(m: Graph, trace: seq<Event>, id: Id, hooks: seq<Event>)
    requires DispatchSafe(m, trace) && AllHooksOf(id, hooks) && (hooks != [] ==> Ready(m, trace, id))
    ensures DispatchSafe(m, trace + hooks)
    decreases |hooks|
  {
    if hooks == [] {
      assert trace + hooks == trace;
    } else {
      var n := |hooks| - 1;
      HooksAreSafe(m, trace, id, hooks[..n]);
      assert (trace + hooks)[..|trace + hooks| - 1] == trace + hooks[..n];
      forall d | d in m[id].needs ensures Finished(trace + hooks[..n], d) && !FailedIn(trace + hooks[..n], d) {
        var st :| StepFinished(Comp(d), st) in trace;
        assert StepFinished(Comp(d), st) in trace + hooks[..n];
      }
    }
  }

  /** What the trace looks like after the first `k` steps of `order`. */
  ghost predicate StepsDone(m: Graph, plan: Plan, order: seq<Id>, k: nat, trace: seq<Event>, failed: set<Id>)
    requires k <= |order|
  {
    && (forall id :: Finished(trace, id) <==> id in order[..k])
    && EndsOnce(trace)
    && (forall id :: id in failed <==> FailedIn(trace, id))
    && (forall e :: e in trace && e.Acts() ==> e.id in order[..k])
    && (Forward(plan) ==> DispatchSafe(m, trace))
    && (forall id :: id in order[..k] ==> BlockedRightly(m, plan, trace, id))
  }

  /** No component's step finishes twice with different statuses. */
  ghost predicate EndsOnce(trace: seq<Event>) {
    forall id, s, t :: StepFinished(Comp(id), s) in trace && StepFinished(Comp(id), t) in trace ==> s == t
  }

  predicate Forward(plan: Plan) { plan.phase == Install || plan.phase == Fix }

  /** Blocked exactly when some direct prerequisite failed. */
  ghost predicate BlockedRightly(m: Graph, plan: Plan, trace: seq<Event>, id: Id) {
    id in m &&
    (StepFinished(Comp(id), SkippedBlocked) in trace <==>
     Forward(plan) && exists d :: d in m[id].needs && FailedIn(trace, d))
  }

  lemma StepTrace(trace: seq<Event>, id: Id, hooks: seq<Event>, st: Status)
    requires AllHooksOf(id, hooks)
    ensures var t := trace + StepEvents(id, hooks, st);
      forall who, s :: StepFinished(who, s) in t <==> StepFinished(who, s) in trace || (who == Comp(id) && s == st)
    ensures var t := trace + StepEvents(id, hooks, st);
      forall e :: e in t && e.Acts() ==> e in trace || e.id == id
  {
    var t := trace + StepEvents(id, hooks, st);
    assert t[|t| - 1] == StepFinished(Comp(id), st);
    assert t == trace + [StepStarted(id)] + hooks + [StepFinished(Comp(id), st)];
  }

  lemma StepIsSafe(m: Graph, trace: seq<Event>, id: Id, hooks: seq<Event>, st: Status)
    requires DispatchSafe(m, trace) && AllHooksOf(id, hooks) && (hooks != [] ==> Ready(m, trace, id))
    ensures DispatchSafe(m, trace + StepEvents(id, hooks, st))
  {
    var t1 := trace + [StepStarted(id)];
    assert t1[..|trace|] == trace;
    if hooks != [] {
      forall d | d in m[id].needs ensures Finished(t1, d) && !FailedIn(t1, d) {
        var s :| StepFinished(Comp(d), s) in trace;
        assert StepFinished(Comp(d), s) in t1;
      }
    }
    HooksAreSafe(m, t1, id, hooks);
    var t := trace + StepEvents(id, hooks, st);
    assert t[..|t| - 1] == t1 + hooks;
  }

  lemma BlockedStaysRight(m: Graph, plan: Plan, order: seq<Id>, k: nat, trace: seq<Event>, hooks: seq<Event>, st: Status, id: Id)
    requires k < |order| && NoDup(order) && OrderedPrefix(m, order) && AllHooksOf(order[k], hooks)
    requires id in order[..k] && BlockedRightly(m, plan, trace, id)
    ensures BlockedRightly(m, plan, trace + StepEvents(order[k], hooks, st), id)
  {
    var j :| 0 <= j < k && order[j] == id;
    StepTrace(trace, order[k], hooks, st);
    forall d | d in m[id].needs ensures d != order[k] {
      assert d in Deps(m, order[j]);
      assert Before(order, j, d);
    }
  }

  lemma StepExtends(m: Graph, plan: Plan, order: seq<Id>, k: nat, trace: seq<Event>, failed: set<Id>, hooks: seq<Event>, st: Status)
    requires k < |order| && NoDup(order) && (Forward(plan) ==> OrderedPrefix(m, order))
    requires order[k] in m && StepsDone(m, plan, order, k, trace, failed) && AllHooksOf(order[k], hooks)
    requires Blocked(plan, m[order[k]], failed) ==> st == SkippedBlocked && hooks == []
    requires st == SkippedBlocked ==> Blocked(plan, m[order[k]], failed)
    ensures StepsDone(m, plan, order, k + 1, trace + StepEvents(order[k], hooks, st),
                      if st == Failed then failed + {order[k]} else failed)
  {
    var id := order[k];
    var t := trace + StepEvents(id, hooks, st);
    TakeOneMore(order, k);
    StepTrace(trace, id, hooks, st);
    hide DispatchSafe;
    assert id !in order[..k];
    assert !Finished(trace, id);
    forall x ensures Finished(t, x) <==> x in order[..k + 1] {
      if Finished(trace, x) {
        var s :| StepFinished(Comp(x), s) in trace;
        assert StepFinished(Comp(x), s) in t;
      }
    }
    if Forward(plan) {
      forall d | d in m[id].needs ensures d in order[..k] {
        assert d in Deps(m, order[k]);
        assert Before(order, k, d);
      }
      StepIsSafe(m, trace, id, hooks, st);
      forall d | d in m[id].needs ensures FailedIn(t, d) <==> d in failed {
      }
      forall x | x in order[..k] ensures BlockedRightly(m, plan, t, x) {
        BlockedStaysRight(m, plan, order, k, trace, hooks, st, x);
      }
    }
  }

  const NOTHING := Summary([], {}, {}, {}, {})

  lemma NothingDone(m: Graph, plan: Plan, order: seq<Id>)
    ensures RostersExact(NOTHING) && NOTHING.results == [] && StepsDone(m, plan, order, 0, [], {})
  {
  }

  /** The gates' refusals, one result per refused target. */
  method RecordRefusals(refused: set<Id>) returns (sum: Summary)
    ensures RostersExact(sum)
    ensures sum.refused == (set id | id in refused :: Comp(id)) && |sum.results| == |refused|
    ensures sum.failed == {} && sum.blocked == {} && sum.incomplete == {}
  {
    hide RostersExact;
    sum := NOTHING;
    NothingDone(map[], Plan(Detect, [], true, Gates(false, false, false)), []);
    var todo := refused;
    while todo != {}
      invariant todo <= refused && RostersExact(sum)
      invariant sum.refused == (set id | id in refused - todo :: Comp(id)) && |sum.results| == |refused| - |todo|
      invariant sum.failed == {} && sum.blocked == {} && sum.incomplete == {}
    {
      var id :| id in todo;
      RecordIsExact(sum, Comp(id), Refused);
      sum := Record(sum, Comp(id), Refused);
      todo := todo - {id};
    }
  }

  /** Everything the first `k` steps of `order` come to. */
  datatype Progress = Progress(trace: seq<Event>, failed: set<Id>, results: seq<OpResult>)

  ghost function StepsOf(env: Env, plan: Plan, m: Graph, order: seq<Id>, k: nat): Progress
    requires k <= |order| && forall x :: x in order ==> x in m
  {
    if k == 0 then Progress([], {}, [])
    else
      var p, id := StepsOf(env, plan, m, order, k - 1), order[k - 1];
      var (st, hooks) := StepOf(env, plan, id, m[id], p.failed, |p.trace| + 1);
      Progress(p.trace + StepEvents(id, hooks, st), if st == Failed then p.failed + {id} else p.failed,
               p.results + [OpResult(Comp(id), st)])
  }

  lemma {:induction false} StepsAreDone(env: Env, plan: Plan, m: Graph, order: seq<Id>, k: nat)
    requires NoDup(order) && (Forward(plan) ==> OrderedPrefix(m, order)) && forall x :: x in order ==> x in m
    requires k <= |order|
    ensures var p := StepsOf(env, plan, m, order, k); StepsDone(m, plan, order, k, p.trace, p.failed)
  {
    hide StepsDone, NoDup, OrderedPrefix, Blocked, StepOf, AllHooksOf, StepEvents;
    if k == 0 {
      NothingDone(m, plan, order);
    } else {
      StepsAreDone(env, plan, m, order, k - 1);
      var p, id := StepsOf(env, plan, m, order, k - 1), order[k - 1];
      var (st, hooks) := StepOf(env, plan, id, m[id], p.failed, |p.trace| + 1);
      StepHooks(env, plan, id, m[id], p.failed, |p.trace| + 1);
      StepExtends(m, plan, order, k - 1, p.trace, p.failed, hooks, st);
    }
  }

  /** The loop over the ordered components. */
  method RunSteps(reg: Registry, env: Env, plan: Plan, order: seq<Id>, before: Summary)
    returns (sum: Summary, trace: seq<Event>, ghost failed: set<Id>)
    requires NoDup(order) && (Forward(plan) ==> OrderedPrefix(reg.comps, order))
    requires forall x :: x in order ==> x in reg.comps
    requires RostersExact(before)
    ensures RostersExact(sum) && before.results <= sum.results
    ensures |sum.results| == |before.results| + |order|
    ensures forall k :: 0 <= k < |order| ==> sum.results[|before.results| + k].subject == Comp(order[k])
    ensures StepsDone(reg.comps, plan, order, |order|, trace, failed)
    ensures var p := StepsOf(env, plan, reg.comps, order, |order|);
      trace == p.trace && failed == p.failed && sum.results == before.results + p.results
  {
    hide RostersExact, StepsDone, NoDup, OrderedPrefix, Blocked, Record, StepOf, StepEvents;
    sum, trace := before, [];
    var failedIds: set<Id> := {};
    for i := 0 to |order|
      invariant RostersExact(sum) && before.results <= sum.results && |sum.results| == |before.results| + i
      invariant forall k :: 0 <= k < i ==> sum.results[|before.results| + k].subject == Comp(order[k])
      invariant var p := StepsOf(env, plan, reg.comps, order, i);
        trace == p.trace && failedIds == p.failed && sum.results == before.results + p.results
    {
      var id := order[i];
      ghost var sum0 := sum;
      var st;
      st, sum, trace := RunStep(env, plan, id, reg.comps[id], failedIds, sum, trace);
      if st == Failed {
        failedIds := failedIds + {id};
      }
      RecordIsExact(sum0, Comp(id), st);
      RecordAppends(sum0, Comp(id), st);
    }
    StepsAreDone(env, plan, reg.comps, order, |order|);
    failed := failedIds;
  }

  lemma RecordAppends(sum: Summary, who: Subject, st: Status)
    ensures Record(sum, who, st).results == sum.results + [OpResult(who, st)]
  {
  }

  lemma RefusalsKept(before: Summary, sum: Summary)
    requires RostersExact(before) && RostersExact(sum) && before.results <= sum.results
    ensures before.refused <= sum.refused
  {
    forall who | who in before.refused ensures who in sum.refused {
      assert OpResult(who, Refused) in before.results;
    }
  }

  /** The gates stop a reset before it touches anything. */
  ghost predicate Halted(reg: Registry, env: Env, plan: Plan) {
    if plan.targets == [] then !(plan.gates.all && plan.gates.confirm)
    else plan.gates.cascade && Folded(reg, env, plan.targets) != {} && !plan.gates.confirm && !plan.dryRun
  }

  lemma LoadOrderFacts(reg: Registry)
    requires reg.Loaded()
    ensures NoDup(reg.order) && OrderedPrefix(reg.comps, reg.order) && ToSet(reg.order) == reg.comps.Keys
  {
  }

  lemma OrderComponents(reg: Registry, order: seq<Id>)
    requires OrderedPrefix(reg.comps, order)
    ensures forall x :: x in order ==> x in reg.comps
  {
  }

  lemma TeardownComponents(reg: Registry, s: set<Id>)
    requires reg.Loaded()
    ensures forall x :: x in Reversed(Select(reg.order, s)) ==> x in reg.comps
  {
    assert forall x :: x in Select(reg.order, s) ==> x in reg.order;
  }

  /** The run went exactly as the specification of its steps says. */
  ghost predicate RanAs(env: Env, plan: Plan, m: Graph, order: seq<Id>, trace: seq<Event>, sum: Summary)
    requires forall x :: x in order ==> x in m
  {
    var p := StepsOf(env, plan, m, order, |order|);
    trace == p.trace && |p.results| <= |sum.results| && sum.results[|sum.results| - |p.results|..] == p.results
  }

  lemma RanAsSpecified(env: Env, plan: Plan, m: Graph, order: seq<Id>, trace: seq<Event>, before: Summary, sum: Summary)
    requires forall x :: x in order ==> x in m
    requires var p := StepsOf(env, plan, m, order, |order|); trace == p.trace && sum.results == before.results + p.results
    ensures RanAs(env, plan, m, order, trace, sum)
  {
  }

  method RunForward(reg: Registry, env: Env, plan: Plan) returns (r: Option<Summary>, trace: seq<Event>, order: seq<Id>, ghost failed: set<Id>)
    requires reg.Loaded() && plan.phase != Remove
    ensures r.None? <==> exists t :: t in plan.targets && t !in reg.comps
    ensures r.Some? ==> NoDup(order) && OrderedPrefix(reg.comps, order)
    ensures r.Some? ==> ToSet(order) == if plan.targets == [] then reg.comps.Keys else UnionOfClosures(reg.comps, plan.targets)
    ensures r.Some? ==> RostersExact(r.value) && StepsDone(reg.comps, plan, order, |order|, trace, failed)
    ensures r.Some? ==> |r.value.results| == |order|
    ensures r.Some? ==> forall k :: 0 <= k < |order| ==> r.value.results[k].subject == Comp(order[k])
    ensures r.Some? ==> (forall x :: x in order ==> x in reg.comps) && RanAs(env, plan, reg.comps, order, trace, r.value)
  {
    hide *;
    trace, failed := [], {};
    LoadOrderFacts(reg);
    order := reg.order;
    if plan.targets != [] {
      var closures := ForwardOrder(reg, plan.targets);
      if closures.Failure? {
        return None, [], [], {};
      }
      order := closures.value;
    }
    OrderComponents(reg, order);
    NothingDone(reg.comps, plan, order);
    var sum;
    sum, trace, failed := RunSteps(reg, env, plan, order, NOTHING);
    RanAsSpecified(env, plan, reg.comps, order, trace, NOTHING, sum);
    r := Some(sum);
  }

  /** The steps of a reset, after the refusals of its gates. */
  method RunRemoval(reg: Registry, env: Env, plan: Plan, order: seq<Id>, refused: set<Id>)
    returns (sum: Summary, trace: seq<Event>, ghost failed: set<Id>)
    requires NoDup(order) && !Forward(plan) && forall x :: x in order ==> x in reg.comps
    ensures RostersExact(sum) && StepsDone(reg.comps, plan, order, |order|, trace, failed)
    ensures |sum.results| == |refused| + |order|
    ensures forall k :: 0 <= k < |order| ==> sum.results[|refused| + k].subject == Comp(order[k])
    ensures forall t :: t in refused ==> Comp(t) in sum.refused
    ensures RanAs(env, plan, reg.comps, order, trace, sum)
  {
    hide NoDup, OrderedPrefix, RostersExact, StepsDone, StepsOf, RanAs;
    var before := RecordRefusals(refused);
    sum, trace, failed := RunSteps(reg, env, plan, order, before);
    RanAsSpecified(env, plan, reg.comps, order, trace, before, sum);
    RefusalsKept(before, sum);
  }

  method RunRemove(reg: Registry, env: Env, plan: Plan) returns (r: Option<Summary>, trace: seq<Event>, order: seq<Id>, ghost failed: set<Id>)
    requires reg.Loaded() && plan.phase == Remove
    ensures r.None? <==> exists t :: t in plan.targets && t !in reg.comps
    ensures r.Some? && Halted(reg, env, plan) ==> order == [] && trace == [] && !r.value.Clean()
    ensures r.Some? && Halted(reg, env, plan) ==>
      r.value.results == [OpResult(if plan.targets == [] then WholeReset else WholeCascade, Refused)]
    ensures r.Some? && plan.targets == [] && !Halted(reg, env, plan) ==>
      |r.value.results| == |order| && forall k :: 0 <= k < |order| ==> r.value.results[k].subject == Comp(order[k])
    ensures r.Some? && !Halted(reg, env, plan) ==> order == Reversed(Select(reg.order, RemovalSet(reg, env, plan)))
    ensures r.Some? ==> RostersExact(r.value)
    ensures r.Some? && !Halted(reg, env, plan) ==> StepsDone(reg.comps, plan, order, |order|, trace, failed)
    ensures r.Some? && !plan.gates.cascade ==> forall t :: t in RefusedTargets(reg, env, plan.targets) ==> Comp(t) in r.value.refused
    ensures r.Some? && !Halted(reg, env, plan) ==>
      (forall x :: x in order ==> x in reg.comps) && RanAs(env, plan, reg.comps, order, trace, r.value)
  {
    hide Topological, NoDup, OrderedPrefix, RostersExact, StepsDone, RemovalSet, RefusedTargets, Folded, StepsOf, RanAs;
    trace, failed, order := [], {}, [];
    NothingDone(reg.comps, plan, []);
    NothingRefused(reg, env, plan);
    var v := RemovalOrder(reg, env, plan);
    match v {
      case UnknownTarget(_) =>
        return None, [], [], {};
      case RefusedWholeReset =>
        RecordIsExact(NOTHING, WholeReset, Refused);
        return Some(Record(NOTHING, WholeReset, Refused)), [], [], {};
      case RefusedCascade =>
        RecordIsExact(NOTHING, WholeCascade, Refused);
        return Some(Record(NOTHING, WholeCascade, Refused)), [], [], {};
      case Proceed(removal, refused) =>
        order := removal;
        TeardownIsDependentsFirst(reg, RemovalSet(reg, env, plan));
        TeardownComponents(reg, RemovalSet(reg, env, plan));
        var sum;
        sum, trace, failed := RunRemoval(reg, env, plan, order, refused);
        r := Some(sum);
    }
  }

  lemma NothingRefused(reg: Registry, env: Env, plan: Plan)
    ensures plan.targets == [] ==> RefusedTargets(reg, env, plan.targets) == {}
  {
  }

  /** What a finished run guarantees, whatever the hooks, guards and wiring answered. */
  ghost predicate RunGuarantee(reg: Registry, env: Env, plan: Plan, sum: Summary, trace: seq<Event>, order: seq<Id>) {
    && RostersExact(sum)
    && (forall e :: e in trace && e.Acts() ==> e.id in order)
    && EndsOnce(trace)
    && (forall id :: id in order ==> BlockedRightly(reg.comps, plan, trace, id))
    && (Forward(plan) ==> DispatchSafe(reg.comps, trace))
    && (plan.phase == Remove ==>
          && DependentsFirst(reg.comps, order)
          && (Halted(reg, env, plan) ==> order == [] && !sum.Clean())
          && (!Halted(reg, env, plan) ==> ToSet(order) == RemovalSet(reg, env, plan)))
  }

  lemma RemovalSetIsComponents(reg: Registry, env: Env, plan: Plan)
    requires reg.Loaded() && forall t :: t in plan.targets ==> t in reg.comps
    ensures ToSet(Reversed(Select(reg.order, RemovalSet(reg, env, plan)))) == RemovalSet(reg, env, plan)
  {
    var s := RemovalSet(reg, env, plan);
    var sel := Select(reg.order, s);
    forall x | x in s ensures x in Reversed(sel) {
      assert x in reg.order;
      var i :| 0 <= i < |sel| && sel[i] == x;
      assert Reversed(sel)[|sel| - 1 - i] == x;
    }
  }

  /** `run`: orders the targets, applies the reset gates, and drives every step. */
  method Run(reg: Registry, env: Env, plan: Plan) returns (r: Option<Summary>, trace: seq<Event>, order: seq<Id>)
    requires reg.Loaded()
    ensures r.None? <==> exists t :: t in plan.targets && t !in reg.comps
    ensures r.Some? ==> RunGuarantee(reg, env, plan, r.value, trace, order)
    ensures r.Some? && plan.phase == Remove && plan.targets == [] && plan.gates.all && plan.gates.confirm ==>
      && ToSet(order) == reg.comps.Keys && |order| == |reg.comps|
      && |r.value.results| == |order| && forall k :: 0 <= k < |order| ==> r.value.results[k].subject == Comp(order[k])
    ensures r.Some? && plan.phase == Remove && plan.targets == [] && !(plan.gates.all && plan.gates.confirm) ==>
      order == [] && trace == [] && r.value.results == [OpResult(WholeReset, Refused)]
    ensures r.Some? && plan.phase == Remove && plan.targets != [] && !plan.gates.cascade ==>
      && (forall t :: t in ToSet(order) <==> t in plan.targets && !NeededByOthers(reg, env, plan.targets, t))
      && (forall t :: t in plan.targets && NeededByOthers(reg, env, plan.targets, t) ==> Comp(t) in r.value.refused)
    ensures r.Some? && plan.phase == Remove && plan.targets != [] && plan.gates.cascade ==>
      if !plan.gates.confirm && !plan.dryRun && (exists t :: t in plan.targets && NeededByOthers(reg, env, plan.targets, t))
      then order == [] && trace == [] && r.value.results == [OpResult(WholeCascade, Refused)]
      else forall t :: t in plan.targets ==> t in ToSet(order)
    ensures r.Some? && plan.phase != Remove ==> NoDup(order) && OrderedPrefix(reg.comps, order)
    ensures r.Some? && plan.phase != Remove ==>
      && |r.value.results| == |order| && (forall k :: 0 <= k < |order| ==> r.value.results[k].subject == Comp(order[k]))
      && forall x :: x in order <==> x in reg.comps && (plan.targets == [] || NeededFor(reg.comps, plan.targets, x))
    ensures r.Some? && (plan.phase == Remove ==> !Halted(reg, env, plan)) ==>
      (forall x :: x in order ==> x in reg.comps) && RanAs(env, plan, reg.comps, order, trace, r.value)
  {
    hide Topological, NoDup, OrderedPrefix, RostersExact, RemovalSet, Folded, DispatchSafe, BlockedRightly, DependentsFirst, RanAs,
      NeededByOthers, RefusedTargets, NeededFor, UnionOfClosures;
    ghost var failed;
    if plan.phase == Remove {
      r, trace, order, failed := RunRemove(reg, env, plan);
      if r.Some? {
        RemovalSetIsComponents(reg, env, plan);
        TeardownIsDependentsFirst(reg, RemovalSet(reg, env, plan));
        NothingTornDown(reg.comps);
        StepsGuarantee(reg.comps, plan, order, trace, failed, Halted(reg, env, plan));
        GatesMean(reg, env, plan);
        WholeRoster(reg.comps, order);
      }
    } else {
      r, trace, order, failed := RunForward(reg, env, plan);
      if r.Some? {
        StepsGuarantee(reg.comps, plan, order, trace, failed, false);
        ClosuresMean(reg.comps, plan.targets);
        assert forall x :: x in order <==> x in ToSet(order);
      }
    }
  }

  /** What the gates decide, told without the sets they build. */
  lemma GatesMean(reg: Registry, env: Env, plan: Plan)
    requires reg.Loaded() && forall t :: t in plan.targets ==> t in reg.comps
    ensures plan.targets == [] ==> RemovalSet(reg, env, plan) == reg.comps.Keys && RefusedTargets(reg, env, plan.targets) == {}
    ensures forall t :: t in RefusedTargets(reg, env, plan.targets) <==> t in plan.targets && NeededByOthers(reg, env, plan.targets, t)
    ensures plan.targets != [] && !plan.gates.cascade ==>
      forall t :: t in RemovalSet(reg, env, plan) <==> t in plan.targets && !NeededByOthers(reg, env, plan.targets, t)
    ensures plan.targets != [] && plan.gates.cascade ==> forall t :: t in plan.targets ==> t in RemovalSet(reg, env, plan)
    ensures Folded(reg, env, plan.targets) != {} <==> exists t :: t in plan.targets && NeededByOthers(reg, env, plan.targets, t)
  {
    hide NeededByOthers, Topological, Protected;
    forall t ensures Protected(reg, env, plan.targets, t) != {} <==> NeededByOthers(reg, env, plan.targets, t) {
      ProtectedMeans(reg, env, plan.targets, t);
    }
    ProtectedAreComponents(reg, env, plan.targets);
    forall t | t in plan.targets && Protected(reg, env, plan.targets, t) != {} ensures Folded(reg, env, plan.targets) != {} {
      var y :| y in Protected(reg, env, plan.targets, t);
      assert y in Folded(reg, env, plan.targets);
    }
  }

  lemma WholeRoster(m: Graph, order: seq<Id>)
    requires NoDup(order)
    ensures ToSet(order) == m.Keys ==> |order| == |m|
  {
    NoDupCardinality(order);
    assert |m.Keys| == |m|;
  }

  lemma NothingTornDown(m: Graph)
    ensures DependentsFirst(m, [])
  {
  }

  lemma StepsGuarantee(m: Graph, plan: Plan, order: seq<Id>, trace: seq<Event>, failed: set<Id>, halted: bool)
    requires if halted then order == [] && trace == [] else StepsDone(m, plan, order, |order|, trace, failed)
    ensures EndsOnce(trace) && forall e :: e in trace && e.Acts() ==> e.id in order
    ensures forall id :: id in order ==> BlockedRightly(m, plan, trace, id)
    ensures Forward(plan) ==> DispatchSafe(m, trace)
  {
    assert order[..|order|] == order;
  }

  /** A dispatched hook, seen by its place in the trace. */
  lemma {:induction false} DispatchedWhenReady(m: Graph, trace: seq<Event>, i: nat)
    requires DispatchSafe(m, trace) && i < |trace| && trace[i].Acts()
    ensures Ready(m, trace[..i], trace[i].id)
  {
    var n := |trace| - 1;
    if i < n {
      DispatchedWhenReady(m, trace[..n], i);
      assert trace[..n][..i] == trace[..i];
    }
  }
}
