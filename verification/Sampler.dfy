/** The telemetry sampler and its control: every interleaving of one sampler and any callers. */
module Sampler {
  import opened Collections

  const MIN_CADENCE := 250
  const START_CADENCE := 1000

  type CallerId(==, !new)

  datatype Op = SetCadence(ms: nat) | SampleNow | Stop

  /** Where a caller is: before its store, before the lock, holding it, before the notify, finished. */
  datatype CallerPc = Ready | Stored | Holding | Bumped | Done

  datatype Caller = Caller(op: Op, pc: CallerPc)

  datatype Pc =
    | Start | StartLocked                 // reading the first `last_seen` under the lock
    | AtLoop                              // `while alive`
    | Sampling | Emitting                 // taking a sample, sending it
    | ReadCadence | WantLock              // preparing the wait
    | Testing                             // holding the lock, testing the wait condition
    | Sleeping                            // lock released, in the wait set
    | Woken                               // out of the wait set, wants the lock again
    | Leaving                             // holding the lock, wait over
    | Recheck                             // `if !alive { break }`
    | Exited

  datatype Holder = Nobody | TheSampler | TheCaller(id: CallerId)

  datatype State = State(
    alive: bool,
    cadence: nat,
    gen: nat,
    holder: Holder,
    pc: Pc,
    lastSeen: nat,
    waitFor: nat,
    callers: map<CallerId, Caller>)

  datatype Action =
    | Spawn(id: CallerId, op: Op)    // a new call begins
    | Call(id: CallerId)             // a caller takes its next step
    | Sample                         // the sampler takes its next step
    | Elapse                         // the wait's timeout runs out
    | Spurious                       // the condition variable wakes for no reason

  const INIT := State(true, START_CADENCE, 0, Nobody, Start, 0, 0, map[])

  function Max(a: nat, b: nat): nat { if a < b then b else a }

  function StepCaller(s: State, id: CallerId): Option<State>
    requires id in s.callers
  {
    var c := s.callers[id];
    match c.pc
    case Ready =>
      (match c.op
       case SetCadence(ms) =>
         Some(s.(cadence := Max(ms, MIN_CADENCE), callers := s.callers[id := c.(pc := Stored)]))
       case Stop => Some(s.(alive := false, callers := s.callers[id := c.(pc := Stored)]))
       case SampleNow => Some(s.(callers := s.callers[id := c.(pc := Stored)])))
    case Stored =>
      if s.holder == Nobody then Some(s.(holder := TheCaller(id), callers := s.callers[id := c.(pc := Holding)])) else None
    case Holding => Some(s.(gen := s.gen + 1, holder := Nobody, callers := s.callers[id := c.(pc := Bumped)]))
    case Bumped =>
      Some(s.(pc := if s.pc == Sleeping then Woken else s.pc, callers := s.callers[id := c.(pc := Done)]))
    case Done => None
  }

  function StepSampler(s: State): Option<State> {
    match s.pc
    case Start => if s.holder == Nobody then Some(s.(holder := TheSampler, pc := StartLocked)) else None
    case StartLocked => Some(s.(lastSeen := s.gen, holder := Nobody, pc := AtLoop))
    case AtLoop => Some(s.(pc := if s.alive then Sampling else Exited))
    case Sampling => Some(s.(pc := Emitting))
    case Emitting => Some(s.(pc := ReadCadence))
    case ReadCadence => Some(s.(waitFor := Max(s.cadence, MIN_CADENCE), pc := WantLock))
    case WantLock => if s.holder == Nobody then Some(s.(holder := TheSampler, pc := Testing)) else None
    case Testing => if s.gen == s.lastSeen then Some(s.(holder := Nobody, pc := Sleeping)) else Some(s.(pc := Leaving))
    case Sleeping => None
    case Woken => if s.holder == Nobody then Some(s.(holder := TheSampler, pc := Testing)) else None
    case Leaving => Some(s.(lastSeen := s.gen, holder := Nobody, pc := Recheck))
    case Recheck => Some(s.(pc := if s.alive then AtLoop else Exited))
    case Exited => None
  }

  function Step(s: State, a: Action): Option<State> {
    match a
    case Spawn(id, op) => if id in s.callers then None else Some(s.(callers := s.callers[id := Caller(op, Ready)]))
    case Call(id) => if id in s.callers then StepCaller(s, id) else None
    case Sample => StepSampler(s)
    case Elapse =>
      if s.pc == Sleeping then Some(s.(pc := Woken))
      else if s.pc == Testing && s.gen == s.lastSeen then Some(s.(pc := Leaving))
      else None
    case Spurious => if s.pc == Sleeping then Some(s.(pc := Woken)) else None
  }

  /** The state after a whole run, if every action was possible in turn. */
  function After(s: State, acts: seq<Action>): Option<State>
    decreases |acts|
  {
    if acts == [] then Some(s)
    else match Step(s, acts[0])
      case None => None
      case Some(s1) => After(s1, acts[1..])
  }

  ghost predicate Reachable(s: State) {
    exists acts :: After(INIT, acts) == Some(s)
  }

  // -------------------------------------------------------------- invariant

  predicate HoldsLock(pc: Pc) { pc == StartLocked || pc == Testing || pc == Leaving }

  /** The sampler has fixed its cadence for the coming wait and not yet left it. */
  predicate Waiting(pc: Pc) { pc == WantLock || pc == Testing || pc == Sleeping || pc == Woken }

  predicate InRound(pc: Pc) { Waiting(pc) || pc == Sampling || pc == Emitting || pc == ReadCadence }

  predicate At(s: State, id: CallerId, pc: CallerPc) { id in s.callers && s.callers[id].pc == pc }

  /** Some caller has bumped the generation and not yet notified. */
  ghost predicate NotifyDue(s: State) { exists id :: At(s, id, Bumped) }

  /** Some caller has made its store and not yet bumped the generation. */
  ghost predicate BumpDue(s: State) { exists id :: At(s, id, Stored) || At(s, id, Holding) }

  predicate StopAt(s: State, id: CallerId, pc: CallerPc) { At(s, id, pc) && s.callers[id].op == Stop }

  ghost predicate StopDone(s: State) { exists id :: StopAt(s, id, Done) }

  ghost predicate StopBumped(s: State) { StopDone(s) || exists id :: StopAt(s, id, Bumped) }

  ghost predicate Mutex(s: State) {
    && (s.holder == TheSampler <==> HoldsLock(s.pc))
    && (forall id :: s.holder == TheCaller(id) <==> At(s, id, Holding))
  }

  ghost predicate Orderly(s: State) {
    && (s.pc != Start && s.pc != StartLocked ==> s.lastSeen <= s.gen)
    && s.cadence >= MIN_CADENCE
    && (s.pc == Exited ==> !s.alive)
  }

  ghost predicate StopsClearAlive(s: State) {
    forall id :: id in s.callers && s.callers[id].op == Stop && s.callers[id].pc != Ready ==> !s.alive
  }

  ghost predicate NoLostNotify(s: State) { s.pc == Sleeping && s.gen != s.lastSeen ==> NotifyDue(s) }

  ghost predicate NoStaleCadence(s: State) {
    Waiting(s.pc) && s.waitFor != s.cadence ==> s.gen != s.lastSeen || BumpDue(s)
  }

  ghost predicate StopsAreSeen(s: State) {
    && (StopBumped(s) && InRound(s.pc) ==> s.gen != s.lastSeen)
    && (StopDone(s) ==> s.pc != Sleeping)
  }

  ghost predicate Inv(s: State) {
    && Mutex(s) && Orderly(s) && StopsClearAlive(s) && NoLostNotify(s) && NoStaleCadence(s) && StopsAreSeen(s)
  }

  /** Only the caller an action names moves. */
  lemma OthersStay(s: State, a: Action)
    requires Step(s, a).Some?
    ensures forall id, pc :: At(s, id, pc) && a != Call(id) ==> At(Step(s, a).value, id, pc)
    ensures forall id, pc :: StopAt(s, id, pc) && a != Call(id) ==> StopAt(Step(s, a).value, id, pc)
    ensures forall id, pc :: At(Step(s, a).value, id, pc) ==> At(s, id, pc) || pc == Ready || a == Call(id)
    ensures forall id, pc :: StopAt(Step(s, a).value, id, pc) ==> StopAt(s, id, pc) || pc == Ready || a == Call(id)
  {
    var s' := Step(s, a).value;
    assert forall id :: id in s.callers && a != Call(id) ==> id in s'.callers && s'.callers[id] == s.callers[id];
    assert forall id :: id in s'.callers && id !in s.callers ==> s'.callers[id].pc == Ready;
  }

  lemma MutexKept(s: State, a: Action)
    requires Inv(s) && Step(s, a).Some?
    ensures Mutex(Step(s, a).value)
  {
    hide NoLostNotify, NoStaleCadence, StopsAreSeen, StopsClearAlive;
    var s' := Step(s, a).value;
    OthersStay(s, a);
    assert a.Call? && At(s, a.id, Holding) ==> s.holder == TheCaller(a.id);
    forall id ensures s'.holder == TheCaller(id) <==> At(s', id, Holding) {
      assert s.holder == TheCaller(id) <==> At(s, id, Holding);
    }
  }

  lemma OrderlyKept(s: State, a: Action)
    requires Inv(s) && Step(s, a).Some?
    ensures Orderly(Step(s, a).value) && StopsClearAlive(Step(s, a).value)
  {
    hide NoLostNotify, NoStaleCadence, StopsAreSeen, Mutex;
    var s' := Step(s, a).value;
    OthersStay(s, a);
  }

  lemma NotifyKept(s: State, a: Action)
    requires Inv(s) && Step(s, a).Some?
    ensures NoLostNotify(Step(s, a).value)
  {
    hide NoStaleCadence, StopsAreSeen, Mutex, StopsClearAlive;
    var s' := Step(s, a).value;
    OthersStay(s, a);
    if s'.pc == Sleeping && s'.gen != s'.lastSeen {
      if a.Call? && At(s, a.id, Holding) {
        assert At(s', a.id, Bumped);
      } else {
        assert s.pc == Sleeping && s.gen != s.lastSeen;
        var id :| At(s, id, Bumped);
        assert At(s', id, Bumped);
      }
    }
  }

  lemma CadenceKept(s: State, a: Action)
    requires Inv(s) && Step(s, a).Some?
    ensures NoStaleCadence(Step(s, a).value)
  {
    hide NoLostNotify, StopsAreSeen, Mutex, StopsClearAlive;
    var s' := Step(s, a).value;
    OthersStay(s, a);
    if Waiting(s'.pc) && s'.waitFor != s'.cadence && s'.gen == s'.lastSeen {
      if s'.cadence != s.cadence {
        assert At(s', a.id, Stored);
      } else {
        assert Waiting(s.pc) && s.waitFor != s.cadence && s.gen == s.lastSeen;
        var id :| At(s, id, Stored) || At(s, id, Holding);
        assert At(s', id, Stored) || At(s', id, Holding);
      }
    }
  }

  lemma StopSource(s: State, a: Action)
    requires Step(s, a).Some?
    ensures StopDone(Step(s, a).value) ==> StopDone(s) || (a.Call? && StopAt(s, a.id, Bumped))
    ensures StopBumped(Step(s, a).value) ==> StopBumped(s) || (a.Call? && StopAt(s, a.id, Holding))
  {
    hide Step;
    OthersStay(s, a);
    var s' := Step(s, a).value;
    if StopDone(s') {
      var id :| StopAt(s', id, Done);
      assert StopAt(s, id, Done) || a == Call(id);
      if a == Call(id) { StopMoves(s, id); }
    }
    if StopBumped(s') {
      var id :| StopAt(s', id, Done) || StopAt(s', id, Bumped);
      assert StopAt(s, id, Done) || StopAt(s, id, Bumped) || a == Call(id);
      if a == Call(id) { StopMoves(s, id); }
    }
  }

  lemma StopMoves(s: State, id: CallerId)
    requires Step(s, Call(id)).Some?
    ensures StopAt(Step(s, Call(id)).value, id, Done) ==> StopAt(s, id, Bumped)
    ensures StopAt(Step(s, Call(id)).value, id, Bumped) ==> StopAt(s, id, Holding)
  {
  }

  lemma StopsKept(s: State, a: Action)
    requires Inv(s) && Step(s, a).Some?
    ensures StopsAreSeen(Step(s, a).value)
  {
    hide NoLostNotify, NoStaleCadence, Mutex, StopDone, StopBumped;
    StopSource(s, a);
    StopIsBumped(s, a);
  }

  lemma StopIsBumped(s: State, a: Action)
    ensures StopDone(s) ==> StopBumped(s)
    ensures StopBumped(s) ==> !StopsClearAlive(s) || !s.alive
    ensures a.Call? && (StopAt(s, a.id, Bumped) || StopAt(s, a.id, Holding)) && StopsClearAlive(s) ==> !s.alive
    ensures a.Call? && StopAt(s, a.id, Bumped) ==> StopBumped(s)
  {
  }

  lemma StepKeepsInv(s: State, a: Action)
    requires Inv(s) && Step(s, a).Some?
    ensures Inv(Step(s, a).value)
  {
    hide *;
    InvUnfolds(s);
    MutexKept(s, a);
    OrderlyKept(s, a);
    NotifyKept(s, a);
    CadenceKept(s, a);
    StopsKept(s, a);
    InvUnfolds(Step(s, a).value);
  }

  lemma InvUnfolds(s: State)
    ensures Inv(s) <==> Mutex(s) && Orderly(s) && StopsClearAlive(s) && NoLostNotify(s) && NoStaleCadence(s) && StopsAreSeen(s)
  {
  }

  lemma {:induction false} RunKeepsInv(s: State, acts: seq<Action>)
    requires Inv(s) && After(s, acts).Some?
    ensures Inv(After(s, acts).value)
    decreases |acts|
  {
    hide Inv, Step;
    if acts != [] {
      StepKeepsInv(s, acts[0]);
      RunKeepsInv(Step(s, acts[0]).value, acts[1..]);
    }
  }

  lemma ReachableInv(s: State)
    requires Reachable(s)
    ensures Inv(s)
  {
    var acts :| After(INIT, acts) == Some(s);
    assert Inv(INIT);
    RunKeepsInv(INIT, acts);
  }

  // ------------------------------------------------------- theorems on states

  /** In every interleaving the sampler sleeps on, with a generation it has not seen, only while some
      caller still has to notify; and on an outdated cadence only while some caller still has to bump
      or to notify. */
  lemma NoLostWakeup(s: State)
    requires Reachable(s) && s.pc == Sleeping
    ensures s.gen != s.lastSeen ==> NotifyDue(s)
    ensures s.waitFor != s.cadence ==> BumpDue(s) || NotifyDue(s)
  {
    ReachableInv(s);
  }

  /** The mutex holds: never two holders, and whoever holds it can take its next step. */
  lemma HolderCanStep(s: State)
    requires Reachable(s)
    ensures s.holder == TheSampler <==> HoldsLock(s.pc)
    ensures s.holder == TheSampler ==> StepSampler(s).Some?
    ensures forall id :: s.holder == TheCaller(id) ==> Step(s, Call(id)).Some? && Step(s, Call(id)).value.holder == Nobody
    ensures forall a, b :: At(s, a, Holding) && At(s, b, Holding) ==> a == b
  {
    hide NoLostNotify, NoStaleCadence, StopsAreSeen, StopsClearAlive, Orderly;
    ReachableInv(s);
  }

  // --------------------------------------------------------- theorems on runs

  predicate TakesSample(s: State, a: Action) { a == Sample && s.pc == Sampling }

  /** No step of the run takes a telemetry sample. */
  ghost predicate NoSampleIn(s: State, acts: seq<Action>)
    requires After(s, acts).Some?
    decreases |acts|
  {
    acts == [] || (!TakesSample(s, acts[0]) && NoSampleIn(Step(s, acts[0]).value, acts[1..]))
  }

  /** How many samples the run emits. */
  ghost function Emitted(s: State, acts: seq<Action>): nat
    requires After(s, acts).Some?
    decreases |acts|
  {
    if acts == [] then 0
    else (if acts[0] == Sample && s.pc == Emitting then 1 else 0) + Emitted(Step(s, acts[0]).value, acts[1..])
  }

  /** How many of the run's steps are the sampler's own. */
  function OwnSteps(acts: seq<Action>): nat {
    if acts == [] then 0 else (if acts[0] == Sample then 1 else 0) + OwnSteps(acts[1..])
  }

  /** A sample is due that has not been taken yet. */
  predicate Owes(s: State) {
    match s.pc
    case Start | StartLocked | Leaving | Recheck | AtLoop | Sampling => true
    case Exited => false
    case _ => s.gen != s.lastSeen
  }

  /** On its way to the due sample, with nothing left to wait for. */
  predicate Alert(s: State) { s.pc == Exited || (Owes(s) && s.pc != Sleeping) }

  /** Steps of its own the sampler needs at most before it samples, once it is alert. */
  function StepsToSample(pc: Pc): (n: nat)
    ensures n <= 8
  {
    match pc
    case Emitting => 8
    case ReadCadence => 7
    case WantLock | Woken | Sleeping => 6
    case Testing => 5
    case Leaving | Start => 4
    case Recheck | StartLocked => 3
    case AtLoop => 2
    case Sampling => 1
    case Exited => 0
  }

  lemma OwesKept(s: State, a: Action)
    requires Inv(s) && Step(s, a).Some? && !TakesSample(s, a) && (Owes(s) || s.pc == Exited)
    ensures Owes(Step(s, a).value) || Step(s, a).value.pc == Exited
    ensures Alert(s) ==> Alert(Step(s, a).value) && a != Elapse && a != Spurious
    ensures Alert(s) && a == Sample ==> StepsToSample(Step(s, a).value.pc) < StepsToSample(s.pc)
    ensures Alert(s) && a != Sample ==> StepsToSample(Step(s, a).value.pc) == StepsToSample(s.pc)
  {
    hide NoLostNotify, NoStaleCadence, StopsAreSeen, Mutex;
  }

  /** Once a call has bumped the generation, whatever else runs: until the next sample is taken one is
      due (or the sampler has stopped); and as soon as the call returns, nothing delays it. */
  lemma {:induction false} CallIsHeard(s: State, id: CallerId, acts: seq<Action>)
    requires Inv(s) && After(s, acts).Some? && NoSampleIn(s, acts)
    requires At(s, id, Bumped) || At(s, id, Done)
    requires Owes(s) || s.pc == Exited
    requires At(s, id, Done) ==> Alert(s)
    ensures Owes(After(s, acts).value) || After(s, acts).value.pc == Exited
    ensures At(After(s, acts).value, id, Done) ==> Alert(After(s, acts).value)
    decreases |acts|
  {
    hide Inv, Step, Owes;
    if acts != [] {
      var s1 := Step(s, acts[0]).value;
      OwesKept(s, acts[0]);
      StepKeepsInv(s, acts[0]);
      CallerMoves(s, id, acts[0]);
      CallIsHeard(s1, id, acts[1..]);
    }
  }

  lemma CallerMoves(s: State, id: CallerId, a: Action)
    requires Step(s, a).Some?
    ensures At(s, id, Holding) && a == Call(id) ==> At(Step(s, a).value, id, Bumped)
    ensures At(s, id, Bumped) && a == Call(id) ==> At(Step(s, a).value, id, Done) && Step(s, a).value.pc != Sleeping
    ensures At(s, id, Bumped) && a != Call(id) ==> At(Step(s, a).value, id, Bumped)
    ensures At(s, id, Done) ==> At(Step(s, a).value, id, Done)
  {
  }

  /** From there the sampler takes at most eight steps of its own before it samples or stops, never
      by letting a timeout run out, and it can always take the next one unless a caller holds the lock
      (which that caller then gives back in one step). */
  lemma {:induction false} AlertRuns(s: State, acts: seq<Action>)
    requires Inv(s) && Alert(s) && After(s, acts).Some? && NoSampleIn(s, acts)
    ensures var t := After(s, acts).value;
      && Inv(t) && Alert(t) && Elapse !in acts && Spurious !in acts
      && OwnSteps(acts) + StepsToSample(t.pc) <= StepsToSample(s.pc)
    decreases |acts|
  {
    hide Inv, Step, Owes, Alert;
    if acts != [] {
      AlertOwes(s);
      OwesKept(s, acts[0]);
      StepKeepsInv(s, acts[0]);
      AlertRuns(Step(s, acts[0]).value, acts[1..]);
      assert acts == [acts[0]] + acts[1..];
    }
  }

  lemma AlertOwes(s: State)
    requires Alert(s)
    ensures Owes(s) || s.pc == Exited
  {
  }

  lemma AlertCanStep(s: State)
    requires Inv(s) && Alert(s)
    ensures s.pc == Exited || StepSampler(s).Some? || s.holder.TheCaller?
  {
    hide NoLostNotify, NoStaleCadence, StopsAreSeen, StopsClearAlive;
  }

  lemma {:induction false} AfterConcat(s: State, xs: seq<Action>, ys: seq<Action>)
    requires After(s, xs).Some? && After(After(s, xs).value, ys).Some?
    ensures After(s, xs + ys) == After(After(s, xs).value, ys)
    decreases |xs|
  {
    hide Step;
    if xs == [] {
      assert xs + ys == ys;
    } else {
      AfterConcat(Step(s, xs[0]).value, xs[1..], ys);
      assert (xs + ys)[1..] == xs[1..] + ys;
    }
  }

  /** `sample_now` and `set_cadence` are served: take any reachable state in which call `id` is about to
      bump, any run `before` from there in which no sample is taken and the call has returned, and any
      further run `later` without a sample. No timeout runs out in `later`, the sampler spends at most
      eight steps of its own in it, and at its end the sampler either has stopped because `alive` is
      false, or still owes the sample and can step (or waits for a caller that holds the lock). */
  lemma SampleNowIsServed(s: State, id: CallerId, before: seq<Action>, later: seq<Action>)
    requires Reachable(s) && At(s, id, Holding)
    requires Step(s, Call(id)).Some? && After(Step(s, Call(id)).value, before).Some?
    requires NoSampleIn(Step(s, Call(id)).value, before)
    requires At(After(Step(s, Call(id)).value, before).value, id, Done)
    requires After(After(Step(s, Call(id)).value, before).value, later).Some?
    requires NoSampleIn(After(Step(s, Call(id)).value, before).value, later)
    ensures var t := After(After(Step(s, Call(id)).value, before).value, later).value;
      && OwnSteps(later) <= 8 && Elapse !in later && Spurious !in later
      && (if t.pc == Exited then !t.alive else Owes(t) && (StepSampler(t).Some? || t.holder.TheCaller?))
  {
    hide NoSampleIn, After, Mutex, NoLostNotify, NoStaleCadence, StopsAreSeen, StopsClearAlive;
    ReachableInv(s);
    StepKeepsInv(s, Call(id));
    CallerMoves(s, id, Call(id));
    var s1 := Step(s, Call(id)).value;
    assert Owes(s1) || s1.pc == Exited;
    CallIsHeard(s1, id, before);
    RunKeepsInv(s1, before);
    var s2 := After(s1, before).value;
    AlertRuns(s2, later);
    var t := After(s2, later).value;
    AlertCanStep(t);
  }

  /** Once `alive` is cleared it stays cleared, and at most the sample already under way is emitted. */
  lemma {:induction false} AtMostOneMoreSample(s: State, acts: seq<Action>)
    requires !s.alive && After(s, acts).Some?
    ensures !After(s, acts).value.alive
    ensures Emitted(s, acts) <= if s.pc == Sampling || s.pc == Emitting then 1 else 0
    decreases |acts|
  {
    if acts != [] {
      AtMostOneMoreSample(Step(s, acts[0]).value, acts[1..]);
    }
  }

  /** Steps of its own the sampler still takes once a `stop` has returned. */
  function StepsToExit(pc: Pc): (n: nat)
    ensures n <= 7
  {
    match pc
    case Sampling => 7
    case Emitting => 6
    case ReadCadence => 5
    case WantLock | Woken | Sleeping => 4
    case Testing | Start => 3
    case Leaving | StartLocked => 2
    case AtLoop | Recheck => 1
    case Exited => 0
  }

  lemma StoppingStep(s: State, a: Action)
    requires Inv(s) && StopDone(s) && Step(s, a).Some?
    ensures StopDone(Step(s, a).value)
    ensures StepsToExit(Step(s, a).value.pc) == StepsToExit(s.pc) - (if a == Sample then 1 else 0)
  {
    hide NoLostNotify, NoStaleCadence, Mutex;
    OthersStay(s, a);
    var id :| StopAt(s, id, Done);
    assert StopAt(Step(s, a).value, id, Done);
    assert StopBumped(s);
  }

  /** After a `stop` has returned, in every run: the sampler is never asleep, its next steps lead to the
      exit in at most seven, and it can always take the next one unless a caller holds the lock. */
  lemma {:induction false} StopEndsTheSampler(s: State, acts: seq<Action>)
    requires Inv(s) && StopDone(s) && After(s, acts).Some?
    ensures var t := After(s, acts).value;
      && t.pc != Sleeping
      && OwnSteps(acts) + StepsToExit(t.pc) == StepsToExit(s.pc)
      && (t.pc == Exited || StepSampler(t).Some? || t.holder.TheCaller?)
    decreases |acts|
  {
    hide NoLostNotify, NoStaleCadence, Step, StepsToExit, Orderly;
    if acts != [] {
      StoppingStep(s, acts[0]);
      StepKeepsInv(s, acts[0]);
      StopEndsTheSampler(Step(s, acts[0]).value, acts[1..]);
    }
  }
}
