/** Cadence, stops and samples over whole runs. */
module SamplerRuns {
  import opened Collections
  import opened Sampler

  // --------------------------------------------------------------- the cadence

  /** The cadence asked for, when this action is the store of a `set_cadence`. */
  function StoreOf(s: State, a: Action): Option<nat> {
    if a.Call? && a.id in s.callers && s.callers[a.id].pc == Ready && s.callers[a.id].op.SetCadence?
    then Some(s.callers[a.id].op.ms) else None
  }

  /** The cadence asked for by the last store of a run. */
  ghost function LastStore(s: State, acts: seq<Action>): Option<nat>
    requires After(s, acts).Some?
    decreases |acts|
  {
    if acts == [] then None
    else
      var later := LastStore(Step(s, acts[0]).value, acts[1..]);
      if later.Some? then later else StoreOf(s, acts[0])
  }

  lemma CadenceStep(s: State, a: Action)
    requires Step(s, a).Some?
    ensures Step(s, a).value.cadence ==
      match StoreOf(s, a) case None => s.cadence case Some(ms) => if ms < 250 then 250 else ms
  {
  }

  lemma {:induction false} CadenceAfter(s: State, acts: seq<Action>)
    requires After(s, acts).Some?
    ensures After(s, acts).value.cadence ==
      match LastStore(s, acts) case None => s.cadence case Some(ms) => if ms < 250 then 250 else ms
    decreases |acts|
  {
    hide Step, StoreOf;
    if acts != [] {
      CadenceStep(s, acts[0]);
      CadenceAfter(Step(s, acts[0]).value, acts[1..]);
    }
  }

  /** The cadence is a second until somebody sets it, and then what was asked for last, though never less than a
      quarter of a second. */
  lemma CadenceIsLastStored(acts: seq<Action>)
    requires After(INIT, acts).Some?
    ensures After(INIT, acts).value.cadence ==
      match LastStore(INIT, acts) case None => 1000 case Some(ms) => if ms < 250 then 250 else ms
  {
    CadenceAfter(INIT, acts);
  }

  /** A `set_cadence` that is past its store has stored. */
  lemma {:induction false} ReturnedHasStored(s: State, acts: seq<Action>, id: CallerId)
    requires After(s, acts).Some? && (id in s.callers ==> s.callers[id].pc == Ready)
    requires var t := After(s, acts).value; id in t.callers && t.callers[id].op.SetCadence? && t.callers[id].pc != Ready
    ensures LastStore(s, acts).Some?
    decreases |acts|
  {
    if acts != [] {
      var s1 := Step(s, acts[0]).value;
      if id in s1.callers && s1.callers[id].pc != Ready {
        OpStays(s1, acts[1..], id);
      } else {
        ReturnedHasStored(s1, acts[1..], id);
      }
    }
  }

  lemma {:induction false} OpStays(s: State, acts: seq<Action>, id: CallerId)
    requires After(s, acts).Some? && id in s.callers
    ensures var t := After(s, acts).value; id in t.callers && t.callers[id].op == s.callers[id].op
    decreases |acts|
  {
    if acts != [] { OpStays(Step(s, acts[0]).value, acts[1..], id); }
  }

  // ------------------------------------------------------------------ the wait

  /** The sampler fixes how long it will wait. */
  predicate BeginsWait(s: State, a: Action) { a == Sample && s.pc == ReadCadence }

  ghost predicate NoWaitBegins(s: State, acts: seq<Action>)
    requires After(s, acts).Some?
    decreases |acts|
  {
    acts == [] || (!BeginsWait(s, acts[0]) && NoWaitBegins(Step(s, acts[0]).value, acts[1..]))
  }

  lemma {:induction false} WaitIsFixed(s: State, acts: seq<Action>)
    requires After(s, acts).Some? && NoWaitBegins(s, acts)
    ensures After(s, acts).value.waitFor == s.waitFor
    decreases |acts|
  {
    if acts != [] { WaitIsFixed(Step(s, acts[0]).value, acts[1..]); }
  }

  /** A wait lasts, until the next one begins, as long as the last `set_cadence` before it asked for. */
  lemma WaitLastsAsSet(before: seq<Action>, later: seq<Action>)
    requires After(INIT, before).Some? && After(INIT, before).value.pc == ReadCadence
    requires Step(After(INIT, before).value, Sample).Some?
    requires After(Step(After(INIT, before).value, Sample).value, later).Some?
    requires NoWaitBegins(Step(After(INIT, before).value, Sample).value, later)
    ensures After(Step(After(INIT, before).value, Sample).value, later).value.waitFor ==
      match LastStore(INIT, before) case None => 1000 case Some(ms) => if ms < 250 then 250 else ms
  {
    hide After, LastStore;
    CadenceIsLastStored(before);
    WaitIsFixed(Step(After(INIT, before).value, Sample).value, later);
  }

  /** While the timeout does not run out and no call bumps the generation, the sampler goes on waiting: neither a
      spurious wake-up nor a call that has only begun makes it sample early. */
  lemma {:induction false} NoEarlySample(s: State, acts: seq<Action>)
    requires Waiting(s.pc) && s.gen == s.lastSeen && After(s, acts).Some? && Elapse !in acts
    requires After(s, acts).value.gen == s.gen
    ensures Waiting(After(s, acts).value.pc) && NoSampleIn(s, acts)
    decreases |acts|
  {
    if acts != [] {
      var s1 := Step(s, acts[0]).value;
      GenerationGrows(s1, acts[1..]);
      assert forall a :: a in acts[1..] ==> a in acts;
      assert acts[0] in acts;
      NoEarlySample(s1, acts[1..]);
    }
  }

  lemma {:induction false} GenerationGrows(s: State, acts: seq<Action>)
    requires After(s, acts).Some?
    ensures After(s, acts).value.gen >= s.gen
    decreases |acts|
  {
    if acts != [] { GenerationGrows(Step(s, acts[0]).value, acts[1..]); }
  }

  /** When the timeout does run out, and nobody holds the lock, the sampler takes its next sample. */
  lemma TimeoutLeadsToSample(s: State)
    requires s.pc == Sleeping && s.holder == Nobody && s.alive && s.gen == s.lastSeen
    ensures var t := After(s, [Elapse, Sample, Elapse, Sample, Sample, Sample]);
      t.Some? && t.value.pc == Sampling && t.value.waitFor == s.waitFor
  {
    var s1 := Step(s, Elapse).value;
    var s2 := Step(s1, Sample).value;
    var s3 := Step(s2, Elapse).value;
    var s4 := Step(s3, Sample).value;
    var s5 := Step(s4, Sample).value;
    var s6 := Step(s5, Sample).value;
    After6(s, [Elapse, Sample, Elapse, Sample, Sample, Sample], s1, s2, s3, s4, s5, s6);
  }

  lemma After6(s: State, acts: seq<Action>, s1: State, s2: State, s3: State, s4: State, s5: State, s6: State)
    requires |acts| == 6 && Step(s, acts[0]) == Some(s1) && Step(s1, acts[1]) == Some(s2) && Step(s2, acts[2]) == Some(s3)
    requires Step(s3, acts[3]) == Some(s4) && Step(s4, acts[4]) == Some(s5) && Step(s5, acts[5]) == Some(s6)
    ensures After(s, acts) == Some(s6)
  {
    hide Step;
    assert acts[1..][1..] == acts[2..] && acts[2..][1..] == acts[3..] && acts[3..][1..] == acts[4..] && acts[4..][1..] == acts[5..];
    assert acts[5..][1..] == [];
    assert After(s5, acts[5..]) == Some(s6);
    assert After(s4, acts[4..]) == Some(s6);
    assert After(s3, acts[3..]) == Some(s6);
    assert After(s2, acts[2..]) == Some(s6);
    assert After(s1, acts[1..]) == Some(s6);
  }

  // ------------------------------------------------------------ stop and emit

  /** Some `stop` has made its store. */
  ghost predicate SomeStopStored(s: State) {
    exists id :: id in s.callers && s.callers[id].op == Stop && s.callers[id].pc != Ready
  }

  lemma StopStep(s: State, a: Action)
    requires Step(s, a).Some? && (!s.alive <==> SomeStopStored(s))
    ensures !Step(s, a).value.alive <==> SomeStopStored(Step(s, a).value)
  {
    var s1 := Step(s, a).value;
    if SomeStopStored(s) {
      var id :| id in s.callers && s.callers[id].op == Stop && s.callers[id].pc != Ready;
      assert id in s1.callers && s1.callers[id].op == Stop && s1.callers[id].pc != Ready;
    }
    if !s1.alive && s.alive { assert s1.callers[a.id].op == Stop && s1.callers[a.id].pc != Ready; }
    if SomeStopStored(s1) && s.alive {
      var id :| id in s1.callers && s1.callers[id].op == Stop && s1.callers[id].pc != Ready;
      assert id in s.callers;
    }
  }

  /** Only `stop` ends the sampler, and any `stop` does: `alive` is cleared exactly when one has made its store,
      and the sampler exits only then. */
  lemma {:induction false} OnlyStopStops(s: State, acts: seq<Action>)
    requires After(s, acts).Some? && (!s.alive <==> SomeStopStored(s)) && (s.pc == Exited ==> !s.alive)
    ensures var t := After(s, acts).value; (!t.alive <==> SomeStopStored(t)) && (t.pc == Exited ==> !t.alive)
    decreases |acts|
  {
    hide SomeStopStored;
    if acts != [] {
      StopStep(s, acts[0]);
      ExitStep(s, acts[0]);
      OnlyStopStops(Step(s, acts[0]).value, acts[1..]);
    }
  }

  lemma ExitStep(s: State, a: Action)
    requires Step(s, a).Some? && (s.pc == Exited ==> !s.alive)
    ensures Step(s, a).value.pc == Exited ==> !Step(s, a).value.alive
  {
  }

  lemma ReachableStops(s: State)
    requires Reachable(s)
    ensures (!s.alive <==> SomeStopStored(s)) && (s.pc == Exited ==> SomeStopStored(s))
  {
    var acts :| After(INIT, acts) == Some(s);
    OnlyStopStops(INIT, acts);
  }

  /** How many samples the run takes. */
  ghost function Taken(s: State, acts: seq<Action>): nat
    requires After(s, acts).Some?
    decreases |acts|
  {
    if acts == [] then 0
    else (if TakesSample(s, acts[0]) then 1 else 0) + Taken(Step(s, acts[0]).value, acts[1..])
  }

  /** Every sample taken is emitted, once, before the next one: at most the latest is still to come. */
  lemma {:induction false} TakenIsEmitted(s: State, acts: seq<Action>)
    requires After(s, acts).Some?
    ensures Taken(s, acts) + (if s.pc == Emitting then 1 else 0)
         == Emitted(s, acts) + (if After(s, acts).value.pc == Emitting then 1 else 0)
    decreases |acts|
  {
    if acts != [] { TakenIsEmitted(Step(s, acts[0]).value, acts[1..]); }
  }

  /** The calls that have bumped the generation. */
  ghost function BumpedCalls(s: State): set<CallerId> {
    set id | id in s.callers && (s.callers[id].pc == Bumped || s.callers[id].pc == Done)
  }

  lemma BumpStep(s: State, a: Action)
    requires Step(s, a).Some?
    ensures BumpedCalls(Step(s, a).value) ==
      BumpedCalls(s) + if a.Call? && a.id in s.callers && s.callers[a.id].pc == Holding then {a.id} else {}
    ensures Step(s, a).value.gen == s.gen + if a.Call? && a.id in s.callers && s.callers[a.id].pc == Holding then 1 else 0
  {
    var s1 := Step(s, a).value;
    forall id ensures id in BumpedCalls(s1) <==> id in BumpedCalls(s) || (a == Call(id) && id in s.callers && s.callers[id].pc == Holding) {
      if id in s.callers && a != Call(id) { assert s1.callers[id] == s.callers[id]; }
    }
  }

  /** Every call bumps the generation exactly once. */
  lemma {:induction false} GenerationCountsCalls(s: State, acts: seq<Action>)
    requires After(s, acts).Some? && s.gen == |BumpedCalls(s)|
    ensures After(s, acts).value.gen == |BumpedCalls(After(s, acts).value)|
    decreases |acts|
  {
    hide Step, BumpedCalls;
    if acts != [] {
      var s1, a := Step(s, acts[0]).value, acts[0];
      BumpStep(s, a);
      if a.Call? && a.id in s.callers && s.callers[a.id].pc == Holding { NotYetBumped(s, a.id); }
      GenerationCountsCalls(s1, acts[1..]);
    }
  }

  lemma NotYetBumped(s: State, id: CallerId)
    requires id in s.callers && s.callers[id].pc == Holding
    ensures id !in BumpedCalls(s)
  {
  }

  lemma ReachableCounts(s: State)
    requires Reachable(s)
    ensures s.gen == |BumpedCalls(s)|
  {
    var acts :| After(INIT, acts) == Some(s);
    assert BumpedCalls(INIT) == {};
    GenerationCountsCalls(INIT, acts);
  }
}
