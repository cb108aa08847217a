/** What a run may do, and what its report says about it: both told from the trace of the run and the answers
    it got from hooks, guards and wiring. */
module RunReport {
  import opened Collections
  import opened Registry
  import opened Executor

  // --------------------------------------------------------- what may be done

  /** The component has a hook for this phase. */
  predicate Provides(c: Component, phase: Phase) {
    && (phase == Detect ==> c.hasDetect) && (phase == Install ==> c.hasInstall) && (phase == Verify ==> c.hasVerify)
    && (phase == Fix ==> c.hasFix) && (phase == Remove ==> c.hasRemove)
  }

  /** The event at moment `at` was allowed: no hook without its GPU, no fix or removal of a destructive component
      against its guard, no wiring in a dry run, no fix of system wiring without `--confirm`. */
  ghost predicate Allowed(env: Env, plan: Plan, c: Component, e: Event, at: nat) {
    && (e.HookRun? ==>
          && Provides(c, e.phase) && (c.gpuRequired ==> env.gpuPresent)
          && (c.destructive && (e.phase == Remove || e.phase == Fix) ==> !env.guardRefuses(at, e.id, e.phase)))
    && (e.Wired? ==>
          && !plan.dryRun && (plan.phase == Install || plan.phase == Fix || plan.phase == Remove)
          && (c.shellWiring || c.systemWiring || c.otherWiring)
          && (e.ok <==> !env.wiringFails(at, e.id))
          && (plan.phase == Fix && c.systemWiring ==> plan.gates.confirm))
  }

  ghost predicate AllAllowed(env: Env, plan: Plan, c: Component, events: seq<Event>, at: nat) {
    forall i :: 0 <= i < |events| ==> Allowed(env, plan, c, events[i], at + i)
  }

  lemma AllowedConcat(env: Env, plan: Plan, c: Component, a: seq<Event>, b: seq<Event>, at: nat)
    requires AllAllowed(env, plan, c, a, at) && AllAllowed(env, plan, c, b, at + |a|)
    ensures AllAllowed(env, plan, c, a + b, at)
  {
    hide Allowed;
    forall i | 0 <= i < |a + b| ensures Allowed(env, plan, c, (a + b)[i], at + i) {
      if i >= |a| { assert Allowed(env, plan, c, b[i - |a|], at + |a| + (i - |a|)); }
    }
  }

  lemma PhaseIsAllowed(env: Env, plan: Plan, id: Id, c: Component, phase: Phase, at: nat)
    ensures AllAllowed(env, plan, c, PhaseEvents(env, id, c, phase, at), at) && AllAllowed(env, plan, c, [], at)
  {
  }

  lemma WiringIsAllowed(env: Env, plan: Plan, id: Id, c: Component, at: nat)
    requires !plan.dryRun && (plan.phase == Install || plan.phase == Fix || plan.phase == Remove)
    requires plan.phase == Fix && c.systemWiring ==> plan.gates.confirm
    ensures AllAllowed(env, plan, c, WiringEvents(env, id, c, at), at)
  {
  }

  lemma TriageIsAllowed(env: Env, plan: Plan, id: Id, c: Component, at: nat)
    ensures AllAllowed(env, plan, c, TriageOf(env, plan, id, c, at).1, at)
  {
    hide PhaseStatus, PhaseEvents, WiringEvents, AllAllowed;
    var seen := if c.hasDetect then PhaseEvents(env, id, c, Detect, at) else [];
    var more := if c.hasVerify then PhaseEvents(env, id, c, Verify, at + |seen|) else [];
    PhaseIsAllowed(env, plan, id, c, Detect, at);
    PhaseIsAllowed(env, plan, id, c, Verify, at + |seen|);
    AllowedConcat(env, plan, c, seen, more, at);
    if plan.phase == Install && !plan.dryRun {
      WiringIsAllowed(env, plan, id, c, at + |seen|);
      AllowedConcat(env, plan, c, seen, WiringEvents(env, id, c, at + |seen|), at);
    }
  }

  /** A fix that goes on to act has its system wiring confirmed. */
  lemma ActsConfirmed(env: Env, plan: Plan, id: Id, c: Component, at: nat)
    requires plan.phase == Fix && !plan.dryRun && TriageOf(env, plan, id, c, at).0.None?
    ensures c.systemWiring ==> plan.gates.confirm
  {
  }

  lemma ActIsAllowed(env: Env, plan: Plan, id: Id, c: Component, at: nat)
    requires plan.phase == Fix && !plan.dryRun && c.systemWiring ==> plan.gates.confirm
    ensures AllAllowed(env, plan, c, ActOf(env, plan, id, c, at).1, at)
  {
    hide PhaseStatus, PhaseEvents, WiringEvents, AllAllowed;
    var acted := PhaseEvents(env, id, c, plan.phase, at);
    PhaseIsAllowed(env, plan, id, c, plan.phase, at);
    if !plan.dryRun && (plan.phase == Install || plan.phase == Fix || plan.phase == Remove) {
      WiringIsAllowed(env, plan, id, c, at + |acted|);
      var wired := WiringEvents(env, id, c, at + |acted|);
      AllowedConcat(env, plan, c, acted, wired, at);
      var now := at + |acted| + |wired|;
      PhaseIsAllowed(env, plan, id, c, Detect, now);
      PhaseIsAllowed(env, plan, id, c, Verify, now);
      AllowedConcat(env, plan, c, acted + wired, PhaseEvents(env, id, c, Detect, now), at);
      AllowedConcat(env, plan, c, acted + wired, PhaseEvents(env, id, c, Verify, now), at);
      AllowedConcat(env, plan, c, acted + wired, [], at);
    } else {
      PhaseIsAllowed(env, plan, id, c, Detect, at + |acted|);
      AllowedConcat(env, plan, c, acted, [], at);
      assert acted + [] + [] == acted;
    }
  }

  lemma StepIsAllowed(env: Env, plan: Plan, id: Id, c: Component, failed: set<Id>, at: nat)
    ensures AllAllowed(env, plan, c, StepOf(env, plan, id, c, failed, at).1, at)
  {
    hide TriageOf, ActOf, AllAllowed, Blocked;
    PhaseIsAllowed(env, plan, id, c, Detect, at);
    TriageIsAllowed(env, plan, id, c, at);
    var (decided, probes) := TriageOf(env, plan, id, c, at);
    if decided.None? {
      if plan.phase == Fix && !plan.dryRun { ActsConfirmed(env, plan, id, c, at); }
      ActIsAllowed(env, plan, id, c, at + |probes|);
      AllowedConcat(env, plan, c, probes, ActOf(env, plan, id, c, at + |probes|).1, at);
    }
  }

  /** Whatever a run does, to whichever component and at whatever moment, was allowed. */
  ghost predicate RunIsAllowed(env: Env, plan: Plan, m: Graph, trace: seq<Event>) {
    forall i :: 0 <= i < |trace| && trace[i].Acts() ==> trace[i].id in m && Allowed(env, plan, m[trace[i].id], trace[i], i)
  }

  lemma {:induction false} NothingForbidden(env: Env, plan: Plan, m: Graph, order: seq<Id>, k: nat)
    requires k <= |order| && forall x :: x in order ==> x in m
    ensures RunIsAllowed(env, plan, m, StepsOf(env, plan, m, order, k).trace)
  {
    hide StepOf, Allowed, AllHooksOf;
    if k > 0 {
      NothingForbidden(env, plan, m, order, k - 1);
      var p, id := StepsOf(env, plan, m, order, k - 1), order[k - 1];
      var (st, hooks) := StepOf(env, plan, id, m[id], p.failed, |p.trace| + 1);
      StepHooks(env, plan, id, m[id], p.failed, |p.trace| + 1);
      StepIsAllowed(env, plan, id, m[id], p.failed, |p.trace| + 1);
      forall i | 0 <= i < |StepEvents(id, hooks, st)| && StepEvents(id, hooks, st)[i].Acts()
        ensures StepEvents(id, hooks, st)[i].id == id && Allowed(env, plan, m[id], StepEvents(id, hooks, st)[i], |p.trace| + i)
      {
        assert 1 <= i <= |hooks| && StepEvents(id, hooks, st)[i] == hooks[i - 1];
        OneHook(id, hooks, i - 1);
        assert Allowed(env, plan, m[id], hooks[i - 1], |p.trace| + 1 + (i - 1));
      }
    }
  }

  lemma OneHook(id: Id, hooks: seq<Event>, i: nat)
    requires AllHooksOf(id, hooks) && i < |hooks|
    ensures hooks[i].Acts() && hooks[i].id == id
  {
  }

  // ------------------------------------------------------ what the report says

  /** This hook was run and gave this answer. */
  ghost predicate Answered(env: Env, events: seq<Event>, at: nat, id: Id, phase: Phase, st: Status) {
    exists i :: 0 <= i < |events| && events[i] == HookRun(id, phase) && env.hook(at + i, id, phase) == st
  }

  /** The last thing done was to run this hook, and it did not answer otherwise. */
  ghost predicate LastCheck(env: Env, events: seq<Event>, at: nat, id: Id, check: Phase, satisfied: bool) {
    events != [] && events[|events| - 1] == HookRun(id, check) && (env.hook(at + |events| - 1, id, check) == Ok <==> satisfied)
  }

  lemma AnsweredFirst(env: Env, a: seq<Event>, b: seq<Event>, at: nat, id: Id, phase: Phase, st: Status)
    requires Answered(env, a, at, id, phase, st)
    ensures Answered(env, a + b, at, id, phase, st)
  {
    var i :| 0 <= i < |a| && a[i] == HookRun(id, phase) && env.hook(at + i, id, phase) == st;
    assert (a + b)[i] == a[i];
  }

  lemma AnsweredSecond(env: Env, a: seq<Event>, b: seq<Event>, at: nat, id: Id, phase: Phase, st: Status)
    requires Answered(env, b, at + |a|, id, phase, st)
    ensures Answered(env, a + b, at, id, phase, st)
  {
    var j :| 0 <= j < |b| && b[j] == HookRun(id, phase) && env.hook(at + |a| + j, id, phase) == st;
    var i := |a| + j;
    assert (a + b)[i] == b[j] && env.hook(at + i, id, phase) == st;
  }

  lemma AnsweredOneOf(env: Env, a: seq<Event>, b: seq<Event>, at: nat, id: Id, phase: Phase, st: Status)
    requires Answered(env, a + b, at, id, phase, st)
    ensures Answered(env, a, at, id, phase, st) || Answered(env, b, at + |a|, id, phase, st)
  {
    var i :| 0 <= i < |a + b| && (a + b)[i] == HookRun(id, phase) && env.hook(at + i, id, phase) == st;
    if i < |a| {
      assert a[i] == (a + b)[i];
    } else {
      var j := i - |a|;
      assert b[j] == (a + b)[i] && env.hook(at + |a| + j, id, phase) == st;
    }
  }

  lemma AnsweredConcat(env: Env, a: seq<Event>, b: seq<Event>, at: nat, id: Id, phase: Phase, st: Status)
    ensures Answered(env, a + b, at, id, phase, st) <==> Answered(env, a, at, id, phase, st) || Answered(env, b, at + |a|, id, phase, st)
  {
    hide Answered;
    if Answered(env, a + b, at, id, phase, st) { AnsweredOneOf(env, a, b, at, id, phase, st); }
    if Answered(env, a, at, id, phase, st) { AnsweredFirst(env, a, b, at, id, phase, st); }
    if Answered(env, b, at + |a|, id, phase, st) { AnsweredSecond(env, a, b, at, id, phase, st); }
  }

  lemma PhaseAnswers(env: Env, id: Id, c: Component, phase: Phase, at: nat, asked: Phase, st: Status)
    ensures Answered(env, PhaseEvents(env, id, c, phase, at), at, id, asked, st) <==>
      asked == phase && CanRun(env, id, c, phase, at) && env.hook(at, id, phase) == st
  {
    var events := PhaseEvents(env, id, c, phase, at);
    if CanRun(env, id, c, phase, at) { assert events == [HookRun(id, phase)] && events[0] == HookRun(id, phase); }
  }

  lemma WiringAnswers(env: Env, id: Id, c: Component, at: nat, asked: Phase, st: Status)
    ensures !Answered(env, WiringEvents(env, id, c, at), at, id, asked, st) && !Answered(env, [], at, id, asked, st)
  {
  }

  lemma TriageAnswers(env: Env, plan: Plan, id: Id, c: Component, at: nat, st: Status)
    ensures !Answered(env, TriageOf(env, plan, id, c, at).1, at, id, plan.phase, st)
  {
    hide PhaseStatus, PhaseEvents, WiringEvents, Answered, CanRun;
    var seen := if c.hasDetect then PhaseEvents(env, id, c, Detect, at) else [];
    var more := if c.hasVerify then PhaseEvents(env, id, c, Verify, at + |seen|) else [];
    WiringAnswers(env, id, c, at, plan.phase, st);
    WiringAnswers(env, id, c, at + |seen|, plan.phase, st);
    PhaseAnswers(env, id, c, Detect, at, plan.phase, st);
    PhaseAnswers(env, id, c, Verify, at + |seen|, plan.phase, st);
    AnsweredConcat(env, seen, more, at, id, plan.phase, st);
    AnsweredConcat(env, seen, WiringEvents(env, id, c, at + |seen|), at, id, plan.phase, st);
  }

  lemma ActAnswers(env: Env, plan: Plan, id: Id, c: Component, at: nat, st: Status)
    ensures Answered(env, ActOf(env, plan, id, c, at).1, at, id, plan.phase, st) <==>
      CanRun(env, id, c, plan.phase, at) && env.hook(at, id, plan.phase) == st
  {
    hide PhaseStatus, PhaseEvents, WiringEvents, Answered, CanRun;
    var acted := PhaseEvents(env, id, c, plan.phase, at);
    var wired := if Wires(plan) then WiringEvents(env, id, c, at + |acted|) else [];
    var now := at + |acted| + |wired|;
    PhaseAnswers(env, id, c, plan.phase, at, plan.phase, st);
    WiringAnswers(env, id, c, at + |acted|, plan.phase, st);
    WiringAnswers(env, id, c, now, plan.phase, st);
    PhaseAnswers(env, id, c, Detect, now, plan.phase, st);
    PhaseAnswers(env, id, c, Verify, now, plan.phase, st);
    AnsweredConcat(env, acted, wired, at, id, plan.phase, st);
    AnsweredConcat(env, acted + wired, [], at, id, plan.phase, st);
    AnsweredConcat(env, acted + wired, PhaseEvents(env, id, c, Detect, now), at, id, plan.phase, st);
    AnsweredConcat(env, acted + wired, PhaseEvents(env, id, c, Verify, now), at, id, plan.phase, st);
  }

  lemma StepAnswers(env: Env, plan: Plan, id: Id, c: Component, failed: set<Id>, at: nat, st: Status)
    ensures var (decided, probes) := TriageOf(env, plan, id, c, at);
      Answered(env, StepOf(env, plan, id, c, failed, at).1, at, id, plan.phase, st) <==>
        !Blocked(plan, c, failed) && decided.None? && CanRun(env, id, c, plan.phase, at + |probes|)
        && env.hook(at + |probes|, id, plan.phase) == st
  {
    hide TriageOf, ActOf, Answered, Blocked, CanRun;
    var (decided, probes) := TriageOf(env, plan, id, c, at);
    WiringAnswers(env, id, c, at, plan.phase, st);
    TriageAnswers(env, plan, id, c, at, st);
    ActAnswers(env, plan, id, c, at + |probes|, st);
    AnsweredConcat(env, probes, ActOf(env, plan, id, c, at + |probes|).1, at, id, plan.phase, st);
  }

  /** A failure, a preview and a required reboot are reported exactly when the hook said so. */
  lemma ReportedAsAnswered(env: Env, plan: Plan, id: Id, c: Component, failed: set<Id>, at: nat, st: Status)
    requires st == Failed || st == DryRun || st == RebootRequired
    ensures var (told, events) := StepOf(env, plan, id, c, failed, at); told == st <==> Answered(env, events, at, id, plan.phase, st)
  {
    hide Answered, Blocked;
    StepAnswers(env, plan, id, c, failed, at, st);
    TriageSkipsOrRefuses(env, plan, id, c, at);
  }

  /** The end of a step that came to act. */
  ghost predicate EndsIn(env: Env, plan: Plan, c: Component, events: seq<Event>, at: nat, id: Id, satisfied: bool) {
    && (plan.phase == Remove && c.hasDetect ==> LastCheck(env, events, at, id, Detect, !satisfied))
    && (plan.phase == Fix && c.hasVerify ==> LastCheck(env, events, at, id, Verify, satisfied))
  }

  lemma LastOf(env: Env, a: seq<Event>, b: seq<Event>, at: nat, id: Id, check: Phase, satisfied: bool)
    requires LastCheck(env, b, at + |a|, id, check, satisfied)
    ensures LastCheck(env, a + b, at, id, check, satisfied)
  {
    assert (a + b)[|a + b| - 1] == b[|b| - 1];
  }

  lemma WiredIn(id: Id, a: seq<Event>, b: seq<Event>)
    ensures Wired(id, false) in a + b <==> Wired(id, false) in a || Wired(id, false) in b
  {
  }

  lemma NoneWired(env: Env, id: Id, c: Component, phase: Phase, at: nat)
    ensures Wired(id, false) !in PhaseEvents(env, id, c, phase, at)
  {
  }

  /** The check after the action, run because what the action needs to run is there. */
  lemma CheckEnds(env: Env, plan: Plan, id: Id, c: Component, st: Status, at: nat) returns (good: bool)
    requires c.gpuRequired ==> env.gpuPresent
    ensures var (st', more) := ReverifyOf(env, plan, id, c, st, at);
      && st' == (if good then st else Incomplete) && Wired(id, false) !in more
      && EndsIn(env, plan, c, more, at, id, good)
      && (!(plan.phase == Remove && c.hasDetect) && !(plan.phase == Fix && c.hasVerify) ==> good)
  {
    good := if plan.phase == Remove && c.hasDetect then env.hook(at, id, Detect) != Ok
            else if plan.phase == Fix && c.hasVerify then env.hook(at, id, Verify) == Ok
            else true;
  }

  /** How an action that went through, or that there was no hook for, is reported. */
  lemma ActEnds(env: Env, plan: Plan, id: Id, c: Component, at: nat)
    requires !plan.dryRun && (PhaseStatus(env, id, c, plan.phase, at) == Ok || PhaseStatus(env, id, c, plan.phase, at) == NoHook)
    ensures var st := PhaseStatus(env, id, c, plan.phase, at); var (end, events) := ActOf(env, plan, id, c, at);
      && (end == st || end == Incomplete)
      && (end == st ==> Wired(id, false) !in events && EndsIn(env, plan, c, events, at, id, true))
      && (end == Incomplete ==>
            Wired(id, false) in events
            || (plan.phase == Remove && LastCheck(env, events, at, id, Detect, true))
            || (plan.phase == Fix && LastCheck(env, events, at, id, Verify, false)))
  {
    var st, acted := PhaseStatus(env, id, c, plan.phase, at), PhaseEvents(env, id, c, plan.phase, at);
    assert c.gpuRequired ==> env.gpuPresent;
    hide PhaseStatus, PhaseEvents, WiringEvents, ReverifyOf, LastCheck;
    var wired := if Wires(plan) then WiringEvents(env, id, c, at + |acted|) else [];
    var st1, now := if Wired(id, false) in wired then Incomplete else st, at + |acted| + |wired|;
    var (end, more) := ReverifyOf(env, plan, id, c, st1, now);
    var good := CheckEnds(env, plan, id, c, st1, now);
    NoneWired(env, id, c, plan.phase, at);
    WiredIn(id, acted, wired);
    WiredIn(id, acted + wired, more);
    EndsInLater(env, plan, c, acted + wired, more, at, id, good);
  }

  lemma EndsInLater(env: Env, plan: Plan, c: Component, a: seq<Event>, b: seq<Event>, at: nat, id: Id, satisfied: bool)
    requires EndsIn(env, plan, c, b, at + |a|, id, satisfied)
    ensures EndsIn(env, plan, c, a + b, at, id, satisfied)
  {
    hide LastCheck;
    if plan.phase == Remove && c.hasDetect { LastOf(env, a, b, at, id, Detect, !satisfied); }
    if plan.phase == Fix && c.hasVerify { LastOf(env, a, b, at, id, Verify, satisfied); }
  }

  lemma TriageWires(env: Env, plan: Plan, id: Id, c: Component, at: nat)
    ensures TriageOf(env, plan, id, c, at).0.None? ==> Wired(id, false) !in TriageOf(env, plan, id, c, at).1
  {
    hide PhaseStatus, PhaseEvents;
    var seen := if c.hasDetect then PhaseEvents(env, id, c, Detect, at) else [];
    NoneWired(env, id, c, Detect, at);
    NoneWired(env, id, c, Verify, at + |seen|);
    WiredIn(id, seen, if c.hasVerify then PhaseEvents(env, id, c, Verify, at + |seen|) else []);
  }

  /** Success is reported only when the hook said so, no wiring failed, and the check that ends the step was
      satisfied: a removed component is no longer detected, a fixed one verifies. */
  lemma SuccessIsEarned(env: Env, plan: Plan, id: Id, c: Component, failed: set<Id>, at: nat)
    requires StepOf(env, plan, id, c, failed, at).0 == Ok
    ensures var events := StepOf(env, plan, id, c, failed, at).1;
      && Answered(env, events, at, id, plan.phase, Ok)
      && (!plan.dryRun ==> Wired(id, false) !in events && EndsIn(env, plan, c, events, at, id, true))
  {
    hide Answered, TriageOf, Blocked, EndsIn, PhaseEvents, WiringEvents;
    var (decided, probes) := TriageOf(env, plan, id, c, at);
    var t := at + |probes|;
    StepAnswers(env, plan, id, c, failed, at, Ok);
    TriageSkipsOrRefuses(env, plan, id, c, at);
    ActOutcome(env, plan, id, c, t);
    if !plan.dryRun {
      ActEnds(env, plan, id, c, t);
      TriageWires(env, plan, id, c, at);
      WiredIn(id, probes, ActOf(env, plan, id, c, t).1);
      EndsInLater(env, plan, c, probes, ActOf(env, plan, id, c, t).1, at, id, true);
    }
  }

  lemma ActOutcome(env: Env, plan: Plan, id: Id, c: Component, at: nat)
    ensures var end := ActOf(env, plan, id, c, at).0;
      && (end == Ok ==> CanRun(env, id, c, plan.phase, at) && env.hook(at, id, plan.phase) == Ok && PhaseStatus(env, id, c, plan.phase, at) == Ok)
      && (end == NoHook ==> !HasHook(c, plan.phase) && PhaseStatus(env, id, c, plan.phase, at) == NoHook)
      && (end == Incomplete ==>
            && !plan.dryRun
            && (PhaseStatus(env, id, c, plan.phase, at) == Ok || PhaseStatus(env, id, c, plan.phase, at) == NoHook))
  {
    hide WiringEvents;
  }

  /** A step is incomplete exactly when something was wired with failures, or the check that ends it was not
      satisfied; short of a hook and with nothing wrong it says so. */
  lemma IncompleteIsTold(env: Env, plan: Plan, id: Id, c: Component, failed: set<Id>, at: nat)
    ensures var (told, events) := StepOf(env, plan, id, c, failed, at);
      && (told == Incomplete ==>
            Wired(id, false) in events
            || (plan.phase == Remove && LastCheck(env, events, at, id, Detect, true))
            || (plan.phase == Fix && LastCheck(env, events, at, id, Verify, false)))
      && (Wired(id, false) in events ==> told == Incomplete || told == Skipped)
      && (told == NoHook ==> !Provides(c, plan.phase) && (!plan.dryRun ==> EndsIn(env, plan, c, events, at, id, true)))
  {
    hide TriageOf, Blocked, EndsIn, PhaseEvents, WiringEvents, LastCheck;
    var (decided, probes) := TriageOf(env, plan, id, c, at);
    TriageSkipsOrRefuses(env, plan, id, c, at);
    if !Blocked(plan, c, failed) {
      TriageWires(env, plan, id, c, at);
      if decided.None? {
        ActTold(env, plan, id, c, at, probes);
      } else {
        RefusedIsUnwired(env, plan, id, c, at);
      }
    }
  }

  lemma RefusedIsUnwired(env: Env, plan: Plan, id: Id, c: Component, at: nat)
    ensures TriageOf(env, plan, id, c, at).0 == Some(Refused) ==> Wired(id, false) !in TriageOf(env, plan, id, c, at).1
  {
    hide PhaseStatus, PhaseEvents;
    var seen := if c.hasDetect then PhaseEvents(env, id, c, Detect, at) else [];
    NoneWired(env, id, c, Detect, at);
    NoneWired(env, id, c, Verify, at + |seen|);
    WiredIn(id, seen, if c.hasVerify then PhaseEvents(env, id, c, Verify, at + |seen|) else []);
  }

  lemma ActTold(env: Env, plan: Plan, id: Id, c: Component, at: nat, probes: seq<Event>)
    requires Wired(id, false) !in probes
    ensures var (told, events) := ActOf(env, plan, id, c, at + |probes|);
      && (told == Incomplete ==>
            Wired(id, false) in probes + events
            || (plan.phase == Remove && LastCheck(env, probes + events, at, id, Detect, true))
            || (plan.phase == Fix && LastCheck(env, probes + events, at, id, Verify, false)))
      && (Wired(id, false) in probes + events ==> told == Incomplete)
      && (told == NoHook ==> !Provides(c, plan.phase) && (!plan.dryRun ==> EndsIn(env, plan, c, probes + events, at, id, true)))
  {
    hide EndsIn, PhaseEvents, PhaseStatus, WiringEvents, LastCheck, ReverifyOf;
    var t := at + |probes|;
    var (told, events) := ActOf(env, plan, id, c, t);
    WiredIn(id, probes, events);
    ActOutcome(env, plan, id, c, t);
    NoneWired(env, id, c, plan.phase, t);
    if !plan.dryRun && (PhaseStatus(env, id, c, plan.phase, t) == Ok || PhaseStatus(env, id, c, plan.phase, t) == NoHook) {
      ActEnds(env, plan, id, c, t);
      if told == Incomplete && !(Wired(id, false) in events) {
        if plan.phase == Remove { LastOf(env, probes, events, at, id, Detect, true); }
        if plan.phase == Fix { LastOf(env, probes, events, at, id, Verify, false); }
      }
      if told != Incomplete { EndsInLater(env, plan, c, probes, events, at, id, true); }
    }
  }

  /** A refused step has not run its hook: a guard said no at that moment, or a fix of system wiring was not
      confirmed. */
  lemma RefusalIsTold(env: Env, plan: Plan, id: Id, c: Component, failed: set<Id>, at: nat)
    requires StepOf(env, plan, id, c, failed, at).0 == Refused
    ensures var events := StepOf(env, plan, id, c, failed, at).1;
      && HookRun(id, plan.phase) !in events
      && ((c.destructive && (plan.phase == Remove || plan.phase == Fix) && env.guardRefuses(at + |events|, id, plan.phase))
          || (plan.phase == Fix && c.systemWiring && !plan.gates.confirm))
  {
    hide Blocked;
  }

  /** A guard that says no stops a removal before anything is done. */
  lemma GuardStopsRemoval(env: Env, plan: Plan, id: Id, c: Component, failed: set<Id>, at: nat)
    requires plan.phase == Remove && (c.gpuRequired ==> env.gpuPresent)
    ensures StepOf(env, plan, id, c, failed, at) == (Refused, []) <==> c.destructive && env.guardRefuses(at, id, Remove)
  {
    hide WiringEvents, ReverifyOf;
    assert StepOf(env, plan, id, c, failed, at) == ActOf(env, plan, id, c, at) by {
      hide ActOf;
      assert [] + ActOf(env, plan, id, c, at).1 == ActOf(env, plan, id, c, at).1;
    }
    if c.destructive && env.guardRefuses(at, id, Remove) {
      assert PhaseStatus(env, id, c, Remove, at) == Refused && PhaseEvents(env, id, c, Remove, at) == [];
    } else if HasHook(c, Remove) {
      assert PhaseEvents(env, id, c, Remove, at) == [HookRun(id, Remove)];
      RunsItsHook(env, plan, id, c, at);
    } else {
      assert PhaseStatus(env, id, c, Remove, at) == NoHook;
      ActOutcome(env, plan, id, c, at);
      ActNotRefused(env, plan, id, c, at);
    }
  }

  lemma RunsItsHook(env: Env, plan: Plan, id: Id, c: Component, at: nat)
    requires PhaseEvents(env, id, c, plan.phase, at) != []
    ensures ActOf(env, plan, id, c, at).1 != []
  {
    hide PhaseEvents, PhaseStatus, WiringEvents, ReverifyOf;
  }

  lemma ActNotRefused(env: Env, plan: Plan, id: Id, c: Component, at: nat)
    requires PhaseStatus(env, id, c, plan.phase, at) == NoHook
    ensures ActOf(env, plan, id, c, at).0 != Refused
  {
    hide PhaseEvents, PhaseStatus, WiringEvents;
  }

  lemma SkippedInstall(env: Env, plan: Plan, id: Id, c: Component, at: nat)
    requires plan.phase == Install && TriageOf(env, plan, id, c, at).0 == Some(Skipped)
    ensures var events := TriageOf(env, plan, id, c, at).1;
      !plan.dryRun && HookRun(id, Install) !in events && Answered(env, events, at, id, Detect, Ok)
  {
    assert TriageOf(env, plan, id, c, at).1[0] == HookRun(id, Detect);
  }

  /** Why a fix leaves a component alone: it is not installed, or nothing is wrong with it. */
  lemma SkippedFix(env: Env, plan: Plan, id: Id, c: Component, at: nat)
    requires plan.phase == Fix && TriageOf(env, plan, id, c, at).0 == Some(Skipped)
    ensures var events := TriageOf(env, plan, id, c, at).1;
      && !plan.dryRun && HookRun(id, Fix) !in events
      && (|| (c.hasDetect && !Answered(env, events, at, id, Detect, Ok) && HookRun(id, Verify) !in events)
          || ((c.hasVerify ==> Answered(env, events, at, id, Verify, Ok))
              && (c.shellWiring || c.systemWiring ==> env.wiringPresent(at + |events|, id))))
  {
    var events := TriageOf(env, plan, id, c, at).1;
    var seen := |if c.hasDetect then PhaseEvents(env, id, c, Detect, at) else []|;
    if |events| > seen { assert events[seen] == HookRun(id, Verify); }
  }

  /** A step is skipped for want of a GPU, because an install finds the component present, or because a fix finds
      it absent, or healthy and wired. */
  lemma SkipIsTold(env: Env, plan: Plan, id: Id, c: Component, failed: set<Id>, at: nat)
    requires StepOf(env, plan, id, c, failed, at).0 == Skipped && (c.gpuRequired ==> env.gpuPresent)
    ensures var events := StepOf(env, plan, id, c, failed, at).1;
      && !plan.dryRun && HookRun(id, plan.phase) !in events
      && (plan.phase == Install || plan.phase == Fix)
      && (plan.phase == Install ==> Answered(env, events, at, id, Detect, Ok))
      && (plan.phase == Fix ==>
            || (c.hasDetect && !Answered(env, events, at, id, Detect, Ok) && HookRun(id, Verify) !in events)
            || ((c.hasVerify ==> Answered(env, events, at, id, Verify, Ok))
                && (c.shellWiring || c.systemWiring ==> env.wiringPresent(at + |events|, id))))
  {
    hide Blocked, TriageOf, Answered, ActOf;
    var (decided, probes) := TriageOf(env, plan, id, c, at);
    ActNeverSkips(env, plan, id, c, at + |probes|);
    TriageOnlyForward(env, plan, id, c, at);
    if plan.phase == Install { SkippedInstall(env, plan, id, c, at); }
    if plan.phase == Fix { SkippedFix(env, plan, id, c, at); }
  }

  lemma ActNeverSkips(env: Env, plan: Plan, id: Id, c: Component, at: nat)
    requires c.gpuRequired ==> env.gpuPresent
    ensures ActOf(env, plan, id, c, at).0 != Skipped
  {
  }

  lemma TriageOnlyForward(env: Env, plan: Plan, id: Id, c: Component, at: nat)
    ensures TriageOf(env, plan, id, c, at).0.Some? ==> plan.phase == Install || plan.phase == Fix
  {
  }

  /** An install leaves a present component alone but for its wiring, and does not report it when that fails. */
  lemma PresentIsRewired(env: Env, plan: Plan, id: Id, c: Component, failed: set<Id>, at: nat)
    requires plan.phase == Install && !plan.dryRun && forall d :: d in c.needs ==> d !in failed
    requires c.hasDetect && (c.gpuRequired ==> env.gpuPresent) && env.hook(at, id, Detect) == Ok
    ensures StepOf(env, plan, id, c, failed, at).0 == Skipped
    ensures StepOf(env, plan, id, c, failed, at).1 ==
      [HookRun(id, Detect)] + if c.shellWiring || c.systemWiring || c.otherWiring then [Wired(id, !env.wiringFails(at + 1, id))] else []
  {
  }

  // ------------------------------------------------------------ the whole run

  lemma OthersSilent(env: Env, events: seq<Event>, at: nat, id: Id, other: Id, phase: Phase, st: Status)
    requires AllHooksOf(other, events) && id != other
    ensures !Answered(env, events, at, id, phase, st)
  {
    forall i | 0 <= i < |events| ensures events[i] != HookRun(id, phase) { assert events[i].id == other; }
  }

  lemma FrameAnswers(env: Env, hooks: seq<Event>, at: nat, id: Id, other: Id, phase: Phase, st: Status, end: Status)
    ensures Answered(env, StepEvents(other, hooks, end), at, id, phase, st) <==> Answered(env, hooks, at + 1, id, phase, st)
  {
    hide Answered;
    NoAnswer(env, StepStarted(other), at, id, phase, st);
    NoAnswer(env, StepFinished(Comp(other), end), at + 1 + |hooks|, id, phase, st);
    AnsweredConcat(env, [StepStarted(other)], hooks, at, id, phase, st);
    AnsweredConcat(env, [StepStarted(other)] + hooks, [StepFinished(Comp(other), end)], at, id, phase, st);
  }

  lemma NoAnswer(env: Env, e: Event, at: nat, id: Id, phase: Phase, st: Status)
    requires !e.HookRun?
    ensures !Answered(env, [e], at, id, phase, st)
  {
  }

  /** The report of a whole run says of every component what its hook answered in the run. */
  lemma {:induction false} ReportIsTrue(env: Env, plan: Plan, m: Graph, order: seq<Id>, k: nat, j: nat, st: Status)
    requires NoDup(order) && j < k <= |order| && forall x :: x in order ==> x in m
    requires st == Failed || st == DryRun || st == RebootRequired
    ensures var p := StepsOf(env, plan, m, order, k);
      |p.results| == k && p.results[j].subject == Comp(order[j])
      && (p.results[j].status == st <==> Answered(env, p.trace, 0, order[j], plan.phase, st))
  {
    hide StepOf, Answered, AllHooksOf, StepEvents;
    var p, id, x := StepsOf(env, plan, m, order, k - 1), order[k - 1], order[j];
    var (end, hooks) := StepOf(env, plan, id, m[id], p.failed, |p.trace| + 1);
    ResultCount(env, plan, m, order, k - 1);
    AnsweredConcat(env, p.trace, StepEvents(id, hooks, end), 0, x, plan.phase, st);
    FrameAnswers(env, hooks, |p.trace|, x, id, plan.phase, st, end);
    if j < k - 1 {
      ReportIsTrue(env, plan, m, order, k - 1, j, st);
      StepHooks(env, plan, id, m[id], p.failed, |p.trace| + 1);
      OthersSilent(env, hooks, |p.trace| + 1, x, id, plan.phase, st);
    } else {
      ReportedAsAnswered(env, plan, id, m[id], p.failed, |p.trace| + 1, st);
      NotYetRun(env, plan, m, order, k - 1, x, st);
    }
  }

  lemma {:induction false} ResultCount(env: Env, plan: Plan, m: Graph, order: seq<Id>, k: nat)
    requires k <= |order| && forall x :: x in order ==> x in m
    ensures |StepsOf(env, plan, m, order, k).results| == k
  {
    hide StepOf, StepEvents;
    if k > 0 { ResultCount(env, plan, m, order, k - 1); }
  }

  lemma {:induction false} NotYetRun(env: Env, plan: Plan, m: Graph, order: seq<Id>, k: nat, x: Id, st: Status)
    requires k <= |order| && (forall z :: z in order ==> z in m) && x !in order[..k]
    ensures !Answered(env, StepsOf(env, plan, m, order, k).trace, 0, x, plan.phase, st)
  {
    hide StepOf, Answered, AllHooksOf, StepEvents;
    if k == 0 {
      NoneAnswered(env, x, plan.phase, st);
    } else {
      var p, id := StepsOf(env, plan, m, order, k - 1), order[k - 1];
      var (end, hooks) := StepOf(env, plan, id, m[id], p.failed, |p.trace| + 1);
      TakeOneMore(order, k - 1);
      NotYetRun(env, plan, m, order, k - 1, x, st);
      StepHooks(env, plan, id, m[id], p.failed, |p.trace| + 1);
      OthersSilent(env, hooks, |p.trace| + 1, x, id, plan.phase, st);
      FrameAnswers(env, hooks, |p.trace|, x, id, plan.phase, st, end);
      AnsweredConcat(env, p.trace, StepEvents(id, hooks, end), 0, x, plan.phase, st);
    }
  }

  lemma NoneAnswered(env: Env, x: Id, phase: Phase, st: Status)
    ensures !Answered(env, [], 0, x, phase, st)
  {
  }
}
