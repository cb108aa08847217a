/** What a sync leaves for each skill, told from lock and disk. */
module SkillOutcome {
  import opened Collections
  import opened SkillSync
  import opened SkillRest

  // ------------------------------------------------- what an entry asks about

  /** The entry asks about this skill: its list names it, or it is a wildcard and the skill is locked. */
  ghost predicate AsksAbout(w: World, src: SourceSpec, k: Key) {
    k.source == src.source &&
    match src.skills
    case Wildcard(_) => k in w.lock
    case List(items) => exists s :: s in items && s.name == k.skill
  }

  /** What the fetched source holds for the skill: a wildcard and a bare name look among the skills found, a
      selector with a path looks there. */
  ghost predicate Holds(src: SourceSpec, f: Fetched, n: Name, item: Item) {
    f.Fetched? &&
    match src.skills
    case Wildcard(_) => n in f.available && f.available[n] == item
    case List(items) => exists s :: s in items && s.name == n && HoldsFor(f, s, item)
  }

  ghost predicate HoldsFor(f: Fetched, s: Selector, item: Item)
    requires f.Fetched?
  {
    if s.ByPath? && s.path.Some? then (s.path.value, s.name) in f.located && f.located[(s.path.value, s.name)] == item
    else s.name in f.available && f.available[s.name] == item
  }

  ghost predicate HoldsNone(src: SourceSpec, f: Fetched, n: Name) {
    forall item :: !Holds(src, f, n, item)
  }

  ghost predicate Everywhere(ctx: Ctx, w: World, n: Name, tree: Tree) {
    forall d :: d in ctx.dests ==> Path(d, n) in w.disk && w.disk[Path(d, n)] == tree
  }

  /** No destination holds the locked tree. */
  ghost predicate Lost(ctx: Ctx, w: World, k: Key)
    requires k in w.lock
  {
    forall d :: d in ctx.dests && Path(d, k.skill) in w.disk ==> Sha(w.disk[Path(d, k.skill)]) != w.lock[k].hash
  }

  /** The lock records another pin than the config asks for now. */
  ghost predicate Retargeted(w: World, src: SourceSpec, k: Key)
    requires k in w.lock
  {
    w.lock[k].revision.Some? && w.lock[k].revision.value != src.expected
  }

  /** The lock holds nothing for a skill that is asked about, or another pin, or a tree that is gone. */
  ghost predicate Outdated(ctx: Ctx, w: World, src: SourceSpec, k: Key) {
    AsksAbout(w, src, k) && (k !in w.lock || Retargeted(w, src, k) || Lost(ctx, w, k))
  }

  /** The state in which a run comes to entry `i`. */
  ghost function AtTurn(ctx: Ctx, apply: bool, w: World, i: nat): World
    requires ctx.Valid() && i <= |ctx.sources|
  {
    RunSources(ctx, apply, Start(w), i).world
  }

  // ------------------------------------------------------- why a source fetches

  lemma AskedIsDesired(w: World, src: SourceSpec, k: Key)
    requires WellKeyed(w.lock) && AsksAbout(w, src, k)
    ensures k.source == src.source && k.skill in DesiredNames(w.lock, src) && k == Key(src.source, k.skill)
  {
    if src.skills.Wildcard? { assert w.lock[k].skill in DesiredNames(w.lock, src); }
  }

  lemma DesiredIsAsked(w: World, src: SourceSpec, n: Name)
    requires WellKeyed(w.lock) && n in DesiredNames(w.lock, src)
    ensures AsksAbout(w, src, Key(src.source, n))
  {
    if src.skills.Wildcard? {
      var k :| k in w.lock && w.lock[k].source == src.source && w.lock[k].skill == n;
      assert k == Key(src.source, n);
    }
  }

  lemma LostIsNotGood(ctx: Ctx, w: World, k: Key)
    requires k in w.lock
    ensures Lost(ctx, w, k) <==> !SomeGood(ctx, w.disk, k.skill, w.lock[k].hash)
  {
    if !SomeGood(ctx, w.disk, k.skill, w.lock[k].hash) {
      forall d | d in ctx.dests && Path(d, k.skill) in w.disk ensures Sha(w.disk[Path(d, k.skill)]) != w.lock[k].hash {
        assert !Matches(w.disk, d, k.skill, w.lock[k].hash);
      }
    }
  }

  lemma OutdatedFetches(ctx: Ctx, w: World, src: SourceSpec, k: Key)
    requires WellKeyed(w.lock) && Outdated(ctx, w, src, k)
    ensures Fetches(ctx, w, src)
  {
    hide SomeGood, Lost, UpdateActive, DesiredNames, HasEntries;
    AskedIsDesired(w, src, k);
    if k in w.lock { LostIsNotGood(ctx, w, k); }
    assert Unservable(ctx, w, src, k.skill);
  }

  lemma {:induction false} ListHolds(items: seq<Selector>, f: Fetched, s: Selector, item: Item)
    requires f.Fetched? && s in items && HoldsFor(f, s, item)
    ensures Task(s.name, Latest(item, f)) in ListTasks(items, f)
  {
    var m := |items| - 1;
    if s == items[m] { assert Resolve(f, s) == Some(item); } else { ListHolds(items[..m], f, s, item); }
  }

  lemma HeldIsTask(src: SourceSpec, f: Fetched, n: Name, item: Item)
    requires Holds(src, f, n, item)
    ensures Task(n, Latest(item, f)) in FetchTasks(src, f)
  {
    if src.skills.List? {
      var s :| s in src.skills.items && s.name == n && HoldsFor(f, s, item);
      ListHolds(src.skills.items, f, s, item);
    } else {
      ListedIsIn(f.available.Keys);
      var names := Listing(f.available.Keys);
      var i :| 0 <= i < |names| && names[i] == n;
      assert AvailableTasks(names, f)[i] == Task(n, Latest(item, f));
    }
  }

  lemma TaskIsHeld(src: SourceSpec, f: Fetched, t: Task)
    requires f.Fetched? && t in FetchTasks(src, f)
    ensures exists item :: Holds(src, f, t.name, item) && t == Task(t.name, Latest(item, f))
  {
    if src.skills.List? {
      ListTaskIsListed(src.skills.items, f, t);
      var s :| s in src.skills.items && Resolve(f, s).Some? && t == Task(s.name, Latest(Resolve(f, s).value, f));
      assert HoldsFor(f, s, Resolve(f, s).value);
      assert Holds(src, f, t.name, Resolve(f, s).value);
    } else {
      ListedIsIn(f.available.Keys);
      assert Holds(src, f, t.name, f.available[t.name]);
    }
  }

  // ------------------------------------------------------------- what is fetched

  /** Fetched now, the skill's entry says so; an unchanged one gets its description only. */
  ghost predicate EntryAsFetched(ctx: Ctx, before: World, k: Key, item: Item, revision: Label, e: Entry)
    requires ctx.Valid()
  {
    && e.hash == Sha(item.tree) && e.description == item.description && e.source == k.source && e.skill == k.skill
    && if k in before.lock && before.lock[k].hash == Sha(item.tree) && Everywhere(ctx, before, k.skill, item.tree)
       then e.revision == before.lock[k].revision && e.destination == before.lock[k].destination
       else e.revision == Some(revision) && e.destination == Path(ctx.dests[0], k.skill)
  }

  /** Everything the fetch holds of this source is locked as fetched, and in every destination. */
  ghost predicate AllAsFetched(ctx: Ctx, before: World, src: SourceSpec, after: World)
    requires ctx.Valid()
  {
    var f := ctx.fetch(src);
    && f.Fetched?
    && forall n, item :: Holds(src, f, n, item) ==>
         var k := Key(src.source, n);
         && k in after.lock && EntryAsFetched(ctx, before, k, item, f.revision, after.lock[k])
         && Everywhere(ctx, after, n, item.tree)
  }

  lemma EverywhereMatches(ctx: Ctx, w: World, n: Name, tree: Tree)
    ensures Everywhere(ctx, w, n, tree) <==> AllMatch(ctx, w.disk, n, Sha(tree))
  {
    if AllMatch(ctx, w.disk, n, Sha(tree)) {
      forall d | d in ctx.dests ensures Path(d, n) in w.disk && w.disk[Path(d, n)] == tree {
        assert Matches(w.disk, d, n, Sha(tree));
      }
    }
  }

  lemma EntryIsAsFetched(ctx: Ctx, w: World, k: Key, item: Item, f: Fetched)
    requires ctx.Valid() && f.Fetched? && WellKeyed(w.lock)
    ensures EntryAsFetched(ctx, w, k, item, f.revision, EntryAfter(ctx, w, k, Latest(item, f)))
  {
    hide AllMatch, Everywhere;
    EverywhereMatches(ctx, w, k.skill, item.tree);
  }

  /** Brought in line again, an entry that says so already stays as it is. */
  lemma SettledEntry(ctx: Ctx, w: World, source: Source, t: Task)
    requires ctx.Valid() && IdleTask(ctx, w, source, t)
    ensures EntryAfter(ctx, w, Key(source, t.name), t.want) == w.lock[Key(source, t.name)]
  {
  }

  lemma {:induction false} LatestStand(ctx: Ctx, s: State, source: Source, tasks: seq<Task>, t: Task)
    requires ctx.Valid() && OneEach(tasks) && TasksServable(s.world.lock, source, tasks) && t in tasks
    requires forall u :: u in tasks ==> u.want.latest.Some?
    ensures var k, w' := Key(source, t.name), ProcessAll(ctx, true, s, source, tasks).world;
      k in w'.lock && w'.lock[k] == EntryAfter(ctx, s.world, k, t.want) && IdleTask(ctx, w', source, t)
    decreases |tasks|
  {
    hide ApplyOne, CountOne, EntryAfter, AllMatch, Landed;
    var n, k := |tasks| - 1, Key(source, t.name);
    var init, u := tasks[..n], tasks[n];
    assert tasks == init + [u];
    var part, w' := ProcessAll(ctx, true, s, source, init), ProcessAll(ctx, true, s, source, tasks).world;
    LatestLand(ctx, s, source, tasks);
    if t in init {
      LatestStand(ctx, s, source, init, t);
      if u.name == t.name { assert u == t; SettledEntry(ctx, part.world, source, t); }
    } else {
      forall v | v in init ensures v.name != t.name { assert v in tasks; }
      NoneBefore(source, init, k);
      forall d ensures SameAt(s.world.disk, part.world.disk, Path(d, t.name)) {
        AllElsewhere(ctx, s, source, init, k, Path(d, t.name));
      }
      AllElsewhere(ctx, s, source, init, k, Path(ctx.dests[0], t.name));
      SameEntry(ctx, s.world, part.world, k, t.want);
    }
    StandsThere(ctx, part.world, source, u, t);
  }

  lemma NoneBefore(source: Source, tasks: seq<Task>, k: Key)
    requires forall v :: v in tasks ==> v.name != k.skill
    ensures k !in TaskKeys(source, tasks)
  {
  }

  lemma SameEntry(ctx: Ctx, w: World, w': World, k: Key, want: Wanted)
    requires ctx.Valid() && want.latest.Some? && SameAt(w.lock, w'.lock, k)
    requires forall d :: SameAt(w.disk, w'.disk, Path(d, k.skill))
    ensures EntryAfter(ctx, w', k, want) == EntryAfter(ctx, w, k, want)
  {
    hide AllMatch;
    MatchAlike(ctx, w.disk, w'.disk, k.skill, Sha(want.tree));
  }

  /** One more task leaves what stands for another name, and brings its own everywhere. */
  lemma StandsThere(ctx: Ctx, w: World, source: Source, u: Task, t: Task)
    requires ctx.Valid() && u.want.latest.Some? && (u.name == t.name ==> u == t)
    requires u.name != t.name ==> IdleTask(ctx, w, source, t)
    ensures var k, w' := Key(source, t.name), ApplyOne(ctx, w, Key(source, u.name), u.want);
      && k in w'.lock && w'.lock[k] == (if u.name == t.name then EntryAfter(ctx, w, k, t.want) else w.lock[k])
      && IdleTask(ctx, w', source, t)
  {
    hide ApplyOne, EntryAfter;
    var k, j := Key(source, t.name), Key(source, u.name);
    OneLands(ctx, w, j, u.want);
    forall d | d in ctx.dests ensures Matches(ApplyOne(ctx, w, j, u.want).disk, d, t.name, Sha(t.want.tree)) {
      ApplyOneAt(ctx, w, j, u.want, k, Path(d, t.name));
      if u.name != t.name { assert Matches(w.disk, d, t.name, Sha(t.want.tree)); }
    }
    ApplyOneAt(ctx, w, j, u.want, k, Path(ctx.dests[0], t.name));
  }

  /** A turn that fetches brings the lock and the destinations to what the fetch holds. */
  lemma TurnFetches(ctx: Ctx, w0: World, s: State, i: nat, n: Name, item: Item)
    requires ctx.Valid() && NamesOnce(ctx, w0) && i < |ctx.sources| && SoundInv(ctx, w0, s) && OneSelector(ctx.sources[i])
    requires !SourceFails(ctx, s.world, ctx.sources[i]) && Fetches(ctx, s.world, ctx.sources[i])
    requires Holds(ctx.sources[i], ctx.fetch(ctx.sources[i]), n, item)
    ensures var src := ctx.sources[i]; var s', t, k := StepSource(ctx, true, s, src), Task(n, Latest(item, ctx.fetch(src))), Key(src.source, n);
      && k in s'.desired && k in s'.world.lock && s'.world.lock[k] == EntryAfter(ctx, s.world, k, t.want)
      && IdleTask(ctx, s'.world, src.source, t)
  {
    hide NamesOnce, SoundInv, SourceFails, Fetches, ProcessAll, FetchTasks, OneSelector, IdleTask, Holds, EntryAfter, Broken, Tasks, TaskKeys,
      TasksServable, Landed, Involved;
    var src := ctx.sources[i];
    var f := ctx.fetch(src);
    FetchAsks(ctx, s.world, src);
    var tasks, s1, t := FetchTasks(src, f), WithBroken(ctx, s.world, s, src), Task(n, Latest(item, f));
    HeldIsTask(src, f, n, item);
    HasKey(src.source, tasks, t);
    FetchTasksAllLatest(src, f);
    TasksAreServable(ctx, s.world, src);
    forall t, u | t in tasks && u in tasks && t.name == u.name ensures t == u {
      SameNameSameTask(ctx, s.world, src, t, u);
    }
    StepDoes(ctx, w0, s, i);
    LatestStand(ctx, s1, src.source, tasks, t);
  }

  lemma FetchTasksAllLatest(src: SourceSpec, f: Fetched)
    requires f.Fetched?
    ensures forall t :: t in FetchTasks(src, f) ==> t.want.latest.Some?
  {
    hide FetchTasks;
    FetchTasksAreLatest(src, f);
  }

  /** No later turn changes what a fetch has brought in line. */
  lemma TurnLeaves(ctx: Ctx, w0: World, s: State, i: nat, src: SourceSpec, t: Task)
    requires ctx.Valid() && NamesOnce(ctx, w0) && i < |ctx.sources| && SoundInv(ctx, w0, s) && OneSelector(ctx.sources[i])
    requires ctx.sources[i] == src || NoneShared(src, ctx.sources[i])
    requires !SourceFails(ctx, s.world, ctx.sources[i])
    requires ctx.fetch(src).Fetched? && t in FetchTasks(src, ctx.fetch(src)) && Covers(src, Key(src.source, t.name))
    requires Key(src.source, t.name) in s.desired && Landed(s.world.lock, src.source, t)
    ensures var s', k := StepSource(ctx, true, s, ctx.sources[i]), Key(src.source, t.name);
      k in s'.desired && SameAt(s.world.lock, s'.world.lock, k) && Landed(s'.world.lock, src.source, t)
  {
    hide NamesOnce, SoundInv, SourceFails, Fetches, FetchTasks, OneSelector, Covers, NoneShared, EntryAfter, StepSource, Tasks, Holds, AllMatch,
      AskedBy, Involved;
    var s', k := StepSource(ctx, true, s, ctx.sources[i]), Key(src.source, t.name);
    StepDoes(ctx, w0, s, i);
    if ctx.sources[i] != src {
      NotAsked(ctx, s.world, src, ctx.sources[i], k);
      StepElsewhere(ctx, s, ctx.sources[i], k, Path(ctx.dests[0], t.name));
    } else if Fetches(ctx, s.world, src) {
      FetchAsks(ctx, s.world, src);
      TaskIsHeld(src, ctx.fetch(src), t);
      var item :| Holds(src, ctx.fetch(src), t.name, item) && t == Task(t.name, Latest(item, ctx.fetch(src)));
      TurnFetches(ctx, w0, s, i, t.name, item);
      InStepIdle(ctx, w0, s, src.source, t);
      SettledEntry(ctx, s.world, src.source, t);
    }
  }

  lemma InStepIdle(ctx: Ctx, w0: World, s: State, source: Source, t: Task)
    requires SoundInv(ctx, w0, s) && Key(source, t.name) in s.desired && Landed(s.world.lock, source, t)
    ensures IdleTask(ctx, s.world, source, t)
  {
    hide Involved, WellKeyed, Matches;
  }

  /** The facts about the state before turn `i` of a run that ends without failures. */
  lemma {:induction false} TurnFacts(ctx: Ctx, w: World, i: nat)
    requires ctx.Valid() && NamesOnce(ctx, w) && WellKeyed(w.lock) && OneWay(ctx.sources) && i < |ctx.sources|
    requires RunSources(ctx, true, Start(w), i + 1).tally.failed == 0
    ensures var s := RunSources(ctx, true, Start(w), i);
      && SoundInv(ctx, w, s) && WellKeyed(s.world.lock) && !SourceFails(ctx, s.world, ctx.sources[i]) && s.tally.failed == 0
      && OneSelector(ctx.sources[i])
  {
    hide WellKeyed, StepSource, NamesOnce, SoundInv, SourceFails, OneWay, OneSelector, NoneShared, Landed, AskedBy, Tasks, Fetches;
    var s := RunSources(ctx, true, Start(w), i);
    RunKeepsSound(ctx, w, i);
    SoundHas(ctx, w, s);
    EqualOrApart(ctx.sources, i, i);
    if SourceFails(ctx, s.world, ctx.sources[i]) { FailureCounts(ctx, s, ctx.sources[i]); }
    StepDoes(ctx, w, s, i);
  }

  lemma {:induction false} FetchedStays(ctx: Ctx, w: World, i: nat, j: nat, n: Name, item: Item)
    requires ctx.Valid() && NamesOnce(ctx, w) && WellKeyed(w.lock) && OneWay(ctx.sources) && i < j <= |ctx.sources|
    requires RunSources(ctx, true, Start(w), j).tally.failed == 0
    requires Fetches(ctx, AtTurn(ctx, true, w, i), ctx.sources[i])
    requires Holds(ctx.sources[i], ctx.fetch(ctx.sources[i]), n, item)
    ensures var src, s := ctx.sources[i], RunSources(ctx, true, Start(w), j); var k, want := Key(src.source, n), Latest(item, ctx.fetch(src));
      && k in s.desired && k in s.world.lock && s.world.lock[k] == EntryAfter(ctx, AtTurn(ctx, true, w, i), k, want)
      && Landed(s.world.lock, src.source, Task(n, want))
  {
    hide WellKeyed, StepSource, NamesOnce, SoundInv, SourceFails, OneWay, OneSelector, NoneShared, Landed, AskedBy, Tasks, Fetches, Holds,
      FetchTasks, EntryAfter, AllMatch, Covers;
    HeldIsCovered(ctx.sources[i], ctx.fetch(ctx.sources[i]), n, item);
    var src, s, t := ctx.sources[i], RunSources(ctx, true, Start(w), j - 1), Task(n, Latest(item, ctx.fetch(ctx.sources[i])));
    TurnFacts(ctx, w, j - 1);
    if j == i + 1 {
      TurnFetches(ctx, w, s, i, n, item);
    } else {
      FetchedStays(ctx, w, i, j - 1, n, item);
      HeldIsTask(src, ctx.fetch(src), n, item);
      EqualOrApart(ctx.sources, j - 1, i);
      TurnLeaves(ctx, w, s, j - 1, src, t);
    }
  }

  lemma HeldIsCovered(src: SourceSpec, f: Fetched, n: Name, item: Item)
    requires Holds(src, f, n, item)
    ensures f.Fetched? && Covers(src, Key(src.source, n))
  {
  }

  /** A run without failures leaves what a fetching source holds locked as fetched, and everywhere. */
  lemma FetchingTurnBrings(ctx: Ctx, w: World, i: nat)
    requires ctx.Valid() && NamesOnce(ctx, w) && WellKeyed(w.lock) && OneWay(ctx.sources) && i < |ctx.sources|
    requires SyncSkills(ctx, true, w).tally.failed == 0 && Fetches(ctx, AtTurn(ctx, true, w, i), ctx.sources[i])
    ensures !ctx.locked && AllAsFetched(ctx, AtTurn(ctx, true, w, i), ctx.sources[i], SyncSkills(ctx, true, w).world)
  {
    hide WellKeyed, NamesOnce, OneWay, RunSources, PruneWorld, Fetches, SourceFails, Stale, Holds, EntryAfter, SoundInv, OneSelector, Everywhere,
      EntryAsFetched, AllMatch;
    var n, src, s := |ctx.sources|, ctx.sources[i], RunSources(ctx, true, Start(w), |ctx.sources|);
    var before, after, f := AtTurn(ctx, true, w, i), SyncSkills(ctx, true, w).world, ctx.fetch(ctx.sources[i]);
    EarlierDidNotFail(ctx, w, i + 1, n);
    TurnFacts(ctx, w, i);
    FetchAsks(ctx, before, src);
    RunKeepsSound(ctx, w, n);
    PruneSpares(ctx, w, s);
    forall m, item | Holds(src, f, m, item)
      ensures var k := Key(src.source, m);
        && k in after.lock && EntryAsFetched(ctx, before, k, item, f.revision, after.lock[k]) && Everywhere(ctx, after, m, item.tree)
    {
      var k := Key(src.source, m);
      FetchedStays(ctx, w, i, n, m, item);
      EntryIsAsFetched(ctx, before, k, item, f);
      assert SameAt(s.world.lock, after.lock, k);
      EverywhereMatches(ctx, after, m, item.tree);
    }
  }

  lemma {:induction false} EarlierDidNotFail(ctx: Ctx, w: World, i: nat, j: nat)
    requires ctx.Valid() && NamesOnce(ctx, w) && WellKeyed(w.lock) && OneWay(ctx.sources) && i <= j <= |ctx.sources|
    requires RunSources(ctx, true, Start(w), j).tally.failed == 0
    ensures RunSources(ctx, true, Start(w), i).tally.failed == 0
  {
    hide WellKeyed, StepSource, NamesOnce, OneWay, SoundInv, SourceFails, OneSelector;
    if i < j {
      TurnFacts(ctx, w, j - 1);
      EarlierDidNotFail(ctx, w, i, j - 1);
    }
  }

  // ------------------------------------------------- when the lock will not do

  /** A skill whose pin has changed, that is not locked yet or whose copies are gone makes its source fetch: in a
      run without failures everything the fetch holds of the source ends up as fetched. */
  lemma OutdatedIsFetched(ctx: Ctx, w: World, i: nat, k: Key)
    requires ctx.Valid() && NamesOnce(ctx, w) && WellKeyed(w.lock) && OneWay(ctx.sources) && i < |ctx.sources|
    requires SyncSkills(ctx, true, w).tally.failed == 0 && Outdated(ctx, AtTurn(ctx, true, w, i), ctx.sources[i], k)
    ensures !ctx.locked && AllAsFetched(ctx, AtTurn(ctx, true, w, i), ctx.sources[i], SyncSkills(ctx, true, w).world)
  {
    hide WellKeyed, NamesOnce, OneWay, RunSources, Fetches, SourceFails, Outdated, AllAsFetched, SyncSkills, SoundInv;
    RunKeepsSound(ctx, w, i);
    SoundHas(ctx, w, RunSources(ctx, true, Start(w), i));
    OutdatedFetches(ctx, AtTurn(ctx, true, w, i), ctx.sources[i], k);
    FetchingTurnBrings(ctx, w, i);
  }

  /** What the entries found outdated come to: none under `--locked`, and else all the fetch holds of their sources. */
  ghost predicate OutdatedAreFetched(ctx: Ctx, w: World, after: World)
    requires ctx.Valid()
  {
    forall i: nat, k :: i < |ctx.sources| && Outdated(ctx, AtTurn(ctx, true, w, i), ctx.sources[i], k) ==>
      !ctx.locked && AllAsFetched(ctx, AtTurn(ctx, true, w, i), ctx.sources[i], after)
  }

  lemma RunFetchesOutdated(ctx: Ctx, w: World)
    requires ctx.Valid() && NamesOnce(ctx, w) && WellKeyed(w.lock) && OneWay(ctx.sources)
    requires SyncSkills(ctx, true, w).tally.failed == 0
    ensures OutdatedAreFetched(ctx, w, SyncSkills(ctx, true, w).world)
  {
    hide WellKeyed, NamesOnce, OneWay, RunSources, Outdated, AllAsFetched, SyncSkills;
    forall i: nat, k | i < |ctx.sources| && Outdated(ctx, AtTurn(ctx, true, w, i), ctx.sources[i], k)
      ensures !ctx.locked && AllAsFetched(ctx, AtTurn(ctx, true, w, i), ctx.sources[i], SyncSkills(ctx, true, w).world)
    {
      OutdatedIsFetched(ctx, w, i, k);
    }
  }

  /** An update makes a source fetch likewise, unless it is restricted to names the source is not asked about. */
  lemma UpdateIsFetched(ctx: Ctx, w: World, i: nat)
    requires ctx.Valid() && NamesOnce(ctx, w) && WellKeyed(w.lock) && OneWay(ctx.sources) && i < |ctx.sources|
    requires SyncSkills(ctx, true, w).tally.failed == 0 && ctx.update
    requires ctx.updateOnly == {} ||
      exists n :: n in ctx.updateOnly && AsksAbout(AtTurn(ctx, true, w, i), ctx.sources[i], Key(ctx.sources[i].source, n))
    ensures AllAsFetched(ctx, AtTurn(ctx, true, w, i), ctx.sources[i], SyncSkills(ctx, true, w).world)
  {
    hide WellKeyed, NamesOnce, OneWay, RunSources, AllAsFetched, SyncSkills, SoundInv, AsksAbout, DesiredNames, NeedsFetch;
    var before, src := AtTurn(ctx, true, w, i), ctx.sources[i];
    RunKeepsSound(ctx, w, i);
    SoundHas(ctx, w, RunSources(ctx, true, Start(w), i));
    if ctx.updateOnly != {} {
      var n :| n in ctx.updateOnly && AsksAbout(before, src, Key(src.source, n));
      AskedIsDesired(before, src, Key(src.source, n));
    }
    FetchingTurnBrings(ctx, w, i);
  }

  // ------------------------------------------- outdated, and fetched no more

  lemma FetchAsksHeld(ctx: Ctx, w: World, src: SourceSpec, k: Key)
    requires Fetches(ctx, w, src) && HoldsNone(src, ctx.fetch(src), k.skill)
    ensures k !in AskedBy(ctx, w, src)
  {
    hide Fetches, FetchTasks, Holds, SourceFails;
    if k in AskedBy(ctx, w, src) {
      FetchAsks(ctx, w, src);
      var t :| t in FetchTasks(src, ctx.fetch(src)) && k == Key(src.source, t.name);
      TaskIsHeld(src, ctx.fetch(src), t);
    }
  }

  /** Asked for, yet held by no fetch: then it was served from the lock, which has the right pin. */
  ghost predicate AskedAtPin(s: State, src: SourceSpec, k: Key) {
    k in s.desired ==> k in s.world.lock && !Retargeted(s.world, src, k)
  }

  lemma AtPinStays(ctx: Ctx, w0: World, s: State, i: nat, src: SourceSpec, k: Key)
    requires ctx.Valid() && NamesOnce(ctx, w0) && i < |ctx.sources| && SoundInv(ctx, w0, s) && OneSelector(ctx.sources[i])
    requires ctx.sources[i] == src || NoneShared(src, ctx.sources[i])
    requires !SourceFails(ctx, s.world, ctx.sources[i]) && Covers(src, k) && HoldsNone(src, ctx.fetch(src), k.skill)
    requires AskedAtPin(s, src, k)
    ensures AskedAtPin(StepSource(ctx, true, s, ctx.sources[i]), src, k)
  {
    hide NamesOnce, SoundInv, SourceFails, Fetches, OneSelector, Covers, NoneShared, StepSource, Tasks, Holds, AskedBy, Involved, HoldsNone, Landed;
    var s' := StepSource(ctx, true, s, ctx.sources[i]);
    StepDoes(ctx, w0, s, i);
    StepElsewhere(ctx, s, ctx.sources[i], k, Path(ctx.dests[0], k.skill));
    if ctx.sources[i] != src {
      NotAsked(ctx, s.world, src, ctx.sources[i], k);
    } else if Fetches(ctx, s.world, src) {
      FetchAsksHeld(ctx, s.world, src, k);
    } else {
      ServedIsAtPin(ctx, s.world, src, k);
    }
  }

  lemma ServedIsAtPin(ctx: Ctx, w: World, src: SourceSpec, k: Key)
    requires !Fetches(ctx, w, src)
    ensures k in AskedBy(ctx, w, src) ==> k in w.lock && !Retargeted(w, src, k)
  {
    hide SomeGood, DesiredNames, LockTasks, NameSeq, SourceFails;
    if k in AskedBy(ctx, w, src) {
      DesiredIsLocked(ctx, w, src);
      var t :| t in LockTasks(w.lock, src.source, NameSeq(w.lock, src)) && k == Key(src.source, t.name);
      LockTaskIsNamed(w.lock, src.source, NameSeq(w.lock, src), t);
      NamesInTurn(w.lock, src, t.name);
    }
  }

  /** Outdated and not asked for. */
  ghost predicate LeftBehind(ctx: Ctx, s: State, src: SourceSpec, k: Key) {
    k !in s.desired && Outdated(ctx, s.world, src, k)
  }

  lemma LeftBehindStays(ctx: Ctx, w0: World, s: State, i: nat, src: SourceSpec, k: Key)
    requires ctx.Valid() && NamesOnce(ctx, w0) && i < |ctx.sources| && SoundInv(ctx, w0, s) && OneSelector(ctx.sources[i])
    requires ctx.sources[i] == src || NoneShared(src, ctx.sources[i])
    requires !SourceFails(ctx, s.world, ctx.sources[i]) && Covers(src, k) && HoldsNone(src, ctx.fetch(src), k.skill)
    requires LeftBehind(ctx, s, src, k)
    ensures LeftBehind(ctx, StepSource(ctx, true, s, ctx.sources[i]), src, k)
  {
    hide NamesOnce, SoundInv, SourceFails, Fetches, OneSelector, Covers, NoneShared, StepSource, Tasks, Holds, AskedBy, Involved, HoldsNone,
      Landed, WellKeyed;
    var other, s' := ctx.sources[i], StepSource(ctx, true, s, ctx.sources[i]);
    StepDoes(ctx, w0, s, i);
    SoundHas(ctx, w0, s);
    StepElsewhere(ctx, s, other, k, Path(ctx.dests[0], k.skill));
    if other == src {
      OutdatedFetches(ctx, s.world, src, k);
      FetchAsksHeld(ctx, s.world, src, k);
    } else {
      NotAsked(ctx, s.world, src, other, k);
    }
    if k in s.world.lock {
      var k2 := Key(other.source, k.skill);
      if k2 in AskedBy(ctx, s.world, other) && other != src {
        TaskIsCovered(ctx, s.world, other, k2);
        SoundHas(ctx, w0, s');
        NamesDiffer(ctx, w0, s', src, other, k, k2);
      }
      forall d ensures SameAt(s.world.disk, s'.world.disk, Path(d, k.skill)) {
        StepElsewhere(ctx, s, other, k, Path(d, k.skill));
        assert other == src ==> k2 == k by { CoveredSource(src, k); }
      }
    }
  }

  lemma CoveredSource(src: SourceSpec, k: Key)
    requires Covers(src, k)
    ensures k == Key(src.source, k.skill)
  {
  }

  lemma AsksCovers(w: World, src: SourceSpec, k: Key)
    requires AsksAbout(w, src, k)
    ensures Covers(src, k)
  {
  }

  lemma {:induction false} UpToTurn(ctx: Ctx, w: World, i: nat, src: SourceSpec, k: Key)
    requires ctx.Valid() && NamesOnce(ctx, w) && WellKeyed(w.lock) && OneWay(ctx.sources) && i <= |ctx.sources| && src in ctx.sources
    requires RunSources(ctx, true, Start(w), i).tally.failed == 0
    requires Covers(src, k) && HoldsNone(src, ctx.fetch(src), k.skill)
    ensures AskedAtPin(RunSources(ctx, true, Start(w), i), src, k)
  {
    hide WellKeyed, StepSource, NamesOnce, SoundInv, SourceFails, OneWay, OneSelector, NoneShared, HoldsNone, Covers, Retargeted;
    if i > 0 {
      var l :| 0 <= l < |ctx.sources| && ctx.sources[l] == src;
      TurnFacts(ctx, w, i - 1);
      UpToTurn(ctx, w, i - 1, src, k);
      EqualOrApart(ctx.sources, i - 1, l);
      AtPinStays(ctx, w, RunSources(ctx, true, Start(w), i - 1), i - 1, src, k);
    }
  }

  lemma {:induction false} FromTurnOn(ctx: Ctx, w: World, i: nat, j: nat, k: Key)
    requires ctx.Valid() && NamesOnce(ctx, w) && WellKeyed(w.lock) && OneWay(ctx.sources) && i <= j <= |ctx.sources| && i < |ctx.sources|
    requires RunSources(ctx, true, Start(w), j).tally.failed == 0
    requires Outdated(ctx, AtTurn(ctx, true, w, i), ctx.sources[i], k) && HoldsNone(ctx.sources[i], ctx.fetch(ctx.sources[i]), k.skill)
    ensures LeftBehind(ctx, RunSources(ctx, true, Start(w), j), ctx.sources[i], k)
  {
    hide WellKeyed, StepSource, NamesOnce, SoundInv, SourceFails, OneWay, OneSelector, NoneShared, HoldsNone, Covers, Outdated;
    var src := ctx.sources[i];
    OutdatedCovers(ctx, AtTurn(ctx, true, w, i), src, k);
    if j == i {
      UpToTurn(ctx, w, i, src, k);
      RunKeepsSound(ctx, w, i);
      OutdatedIsUnasked(ctx, w, RunSources(ctx, true, Start(w), i), src, k);
    } else {
      TurnFacts(ctx, w, j - 1);
      FromTurnOn(ctx, w, i, j - 1, k);
      EqualOrApart(ctx.sources, j - 1, i);
      LeftBehindStays(ctx, w, RunSources(ctx, true, Start(w), j - 1), j - 1, src, k);
    }
  }

  lemma OutdatedCovers(ctx: Ctx, w: World, src: SourceSpec, k: Key)
    requires Outdated(ctx, w, src, k)
    ensures Covers(src, k)
  {
    AsksCovers(w, src, k);
  }

  lemma AskedIsGood(ctx: Ctx, w0: World, s: State, k: Key)
    requires ctx.Valid() && SoundInv(ctx, w0, s)
    ensures k in s.desired ==> k in s.world.lock && !Lost(ctx, s.world, k)
  {
    hide WellKeyed, Involved;
    if k in s.desired {
      assert ctx.dests[0] in ctx.dests;
      assert Matches(s.world.disk, ctx.dests[0], k.skill, s.world.lock[k].hash);
    }
  }

  lemma OutdatedIsUnasked(ctx: Ctx, w0: World, s: State, src: SourceSpec, k: Key)
    requires ctx.Valid() && SoundInv(ctx, w0, s) && Outdated(ctx, s.world, src, k) && AskedAtPin(s, src, k)
    ensures k !in s.desired
  {
    hide SoundInv, AsksAbout, Retargeted, Lost;
    AskedIsGood(ctx, w0, s, k);
  }

  /** Outdated, and no longer held by its source: a run without failures drops it from the lock. */
  lemma OutdatedIsDropped(ctx: Ctx, w: World, i: nat, k: Key)
    requires ctx.Valid() && NamesOnce(ctx, w) && WellKeyed(w.lock) && OneWay(ctx.sources) && i < |ctx.sources|
    requires SyncSkills(ctx, true, w).tally.failed == 0 && Outdated(ctx, AtTurn(ctx, true, w, i), ctx.sources[i], k)
    requires HoldsNone(ctx.sources[i], ctx.fetch(ctx.sources[i]), k.skill)
    ensures k !in SyncSkills(ctx, true, w).world.lock
  {
    hide WellKeyed, NamesOnce, OneWay, RunSources, PruneWorld, Outdated, HoldsNone, SoundInv, AllMatch, Stale;
    var n := |ctx.sources|;
    FromTurnOn(ctx, w, i, n, k);
    RunKeepsSound(ctx, w, n);
    PruneSpares(ctx, w, RunSources(ctx, true, Start(w), n));
  }

  /** A run without failures keeps lock entries under their own keys. */
  lemma AfterIsKeyed(ctx: Ctx, w: World)
    requires ctx.Valid() && NamesOnce(ctx, w) && WellKeyed(w.lock) && SyncSkills(ctx, true, w).tally.failed == 0
    ensures WellKeyed(SyncSkills(ctx, true, w).world.lock)
  {
    hide RunSources, NamesOnce, WellKeyed, PruneWorld, SoundInv, Stale, AllMatch;
    RunKeepsSound(ctx, w, |ctx.sources|);
    PruneSpares(ctx, w, RunSources(ctx, true, Start(w), |ctx.sources|));
  }

  // ------------------------------------------------------------- what fails

  lemma {:induction false} AllCount(ctx: Ctx, apply: bool, s: State, source: Source, tasks: seq<Task>)
    requires ctx.Valid() && TasksServable(s.world.lock, source, tasks)
    ensures var t, t' := s.tally, ProcessAll(ctx, apply, s, source, tasks).tally;
      && t'.failed == t.failed && t'.removed == t.removed && t'.broken == t.broken
      && t'.installed + t'.updated + t'.kept == t.installed + t.updated + t.kept + |tasks|
    decreases |tasks|
  {
    hide ApplyOne, Unchanged;
    if tasks != [] { AllCount(ctx, apply, s, source, tasks[..|tasks| - 1]); }
  }

  lemma FailuresStay(ctx: Ctx, apply: bool, s: State, src: SourceSpec)
    requires ctx.Valid()
    ensures StepSource(ctx, apply, s, src).tally.failed == s.tally.failed + if SourceFails(ctx, s.world, src) then 1 else 0
  {
    hide SourceFails, Tasks, ProcessAll, Fetches, Broken;
    if !SourceFails(ctx, s.world, src) {
      TasksAreServable(ctx, s.world, src);
      AllCount(ctx, apply, WithBroken(ctx, s.world, s, src), src.source, Tasks(ctx, s.world, src));
    }
  }

  lemma {:induction false} FailedRun(ctx: Ctx, apply: bool, w: World, i: nat, j: nat)
    requires ctx.Valid() && i < j <= |ctx.sources| && SourceFails(ctx, AtTurn(ctx, apply, w, i), ctx.sources[i])
    ensures RunSources(ctx, apply, Start(w), j).tally.failed > 0
  {
    hide SourceFails, StepSource;
    FailuresStay(ctx, apply, RunSources(ctx, apply, Start(w), j - 1), ctx.sources[j - 1]);
    if i < j - 1 { FailedRun(ctx, apply, w, i, j - 1); }
  }

  lemma {:induction false} SomeTurnFailed(ctx: Ctx, apply: bool, w: World, j: nat) returns (i: nat)
    requires ctx.Valid() && j <= |ctx.sources| && RunSources(ctx, apply, Start(w), j).tally.failed > 0
    ensures i < j && SourceFails(ctx, AtTurn(ctx, apply, w, i), ctx.sources[i])
  {
    hide SourceFails, StepSource;
    FailuresStay(ctx, apply, RunSources(ctx, apply, Start(w), j - 1), ctx.sources[j - 1]);
    if SourceFails(ctx, AtTurn(ctx, apply, w, j - 1), ctx.sources[j - 1]) {
      i := j - 1;
    } else {
      i := SomeTurnFailed(ctx, apply, w, j - 1);
    }
  }

  /** A source that would have to fetch, but may not (`--locked`) or cannot, fails the run; previews too. */
  lemma OutdatedFails(ctx: Ctx, apply: bool, w: World, i: nat, k: Key)
    requires ctx.Valid() && i < |ctx.sources| && WellKeyed(AtTurn(ctx, apply, w, i).lock)
    requires Outdated(ctx, AtTurn(ctx, apply, w, i), ctx.sources[i], k)
    requires ctx.locked || ctx.fetch(ctx.sources[i]).FetchFailed? || ctx.sources[i].skills == Wildcard(false)
    ensures SyncSkills(ctx, apply, w).tally.failed > 0
  {
    hide WellKeyed, RunSources, Outdated, Fetches, Satisfiable, PruneWorld, Stale;
    OutdatedFetches(ctx, AtTurn(ctx, apply, w, i), ctx.sources[i], k);
    FailedRun(ctx, apply, w, i, |ctx.sources|);
  }

  // ------------------------------------------------------ when the lock will do

  /** All the entry asks about is locked at its pin, with a good copy left, and no update concerns it. */
  ghost predicate UpToDate(ctx: Ctx, w: World, src: SourceSpec) {
    && (forall k :: !Outdated(ctx, w, src, k))
    && (src.skills.Wildcard? ==> exists k :: AsksAbout(w, src, k))
    && (ctx.update ==> ctx.updateOnly != {} && forall n :: n in ctx.updateOnly ==> !AsksAbout(w, src, Key(src.source, n)))
  }

  lemma UpToDateIsServed(ctx: Ctx, w: World, src: SourceSpec)
    requires WellKeyed(w.lock)
    ensures UpToDate(ctx, w, src) <==> !Fetches(ctx, w, src)
  {
    hide AsksAbout, DesiredNames, SomeGood, Lost;
    forall n | n in DesiredNames(w.lock, src) ensures Unservable(ctx, w, src, n) <==> Outdated(ctx, w, src, Key(src.source, n)) {
      DesiredIsAsked(w, src, n);
      if Key(src.source, n) in w.lock { LostIsNotGood(ctx, w, Key(src.source, n)); }
    }
    forall k | AsksAbout(w, src, k) ensures k.skill in DesiredNames(w.lock, src) && k == Key(src.source, k.skill) {
      AskedIsDesired(w, src, k);
    }
    if src.skills.Wildcard? {
      if HasEntries(w.lock, src.source) {
        var k :| k in w.lock && w.lock[k].source == src.source;
        WildcardAsks(w, src, k);
      }
      forall k | AsksAbout(w, src, k) ensures HasEntries(w.lock, src.source) { WildcardAsks(w, src, k); }
    }
    forall n | n in DesiredNames(w.lock, src) ensures AsksAbout(w, src, Key(src.source, n)) { DesiredIsAsked(w, src, n); }
    assert UpdateActive(ctx, DesiredNames(w.lock, src)) <==>
      ctx.update && (ctx.updateOnly == {} || exists n :: n in ctx.updateOnly && AsksAbout(w, src, Key(src.source, n)));
  }

  lemma WildcardAsks(w: World, src: SourceSpec, k: Key)
    requires WellKeyed(w.lock) && src.skills.Wildcard?
    ensures AsksAbout(w, src, k) <==> k in w.lock && w.lock[k].source == src.source
  {
  }

  lemma {:induction false} ServedStays(ctx: Ctx, w: World, i: nat, j: nat, k: Key)
    requires ctx.Valid() && NamesOnce(ctx, w) && WellKeyed(w.lock) && OneWay(ctx.sources) && i < j <= |ctx.sources|
    requires RunSources(ctx, true, Start(w), j).tally.failed == 0
    requires !Fetches(ctx, AtTurn(ctx, true, w, i), ctx.sources[i]) && AsksAbout(AtTurn(ctx, true, w, i), ctx.sources[i], k)
    ensures var s := RunSources(ctx, true, Start(w), j);
      k in s.desired && SameAt(AtTurn(ctx, true, w, i).lock, s.world.lock, k) && ServedSoFar(ctx, s, ctx.sources[i])
  {
    hide WellKeyed, StepSource, NamesOnce, SoundInv, SourceFails, OneWay, OneSelector, NoneShared, Landed, AskedBy, Tasks, Fetches, Covers,
      AsksAbout, DesiredNames, PruneWorld, Full;
    var src, s := ctx.sources[i], RunSources(ctx, true, Start(w), j - 1);
    TurnFacts(ctx, w, j - 1);
    StepDoes(ctx, w, s, j - 1);
    EqualOrApart(ctx.sources, j - 1, i);
    if j == i + 1 {
      AskedIsDesired(s.world, src, k);
      ServedAsks(ctx, s.world, src, k.skill);
    } else {
      ServedStays(ctx, w, i, j - 1, k);
      AsksCovers(AtTurn(ctx, true, w, i), src, k);
      if ctx.sources[j - 1] == src {
        if Fetches(ctx, s.world, src) { FetchPersists(ctx, w, s, src); }
      } else {
        NotAsked(ctx, s.world, src, ctx.sources[j - 1], k);
        StepElsewhere(ctx, s, ctx.sources[j - 1], k, Path(ctx.dests[0], k.skill));
      }
    }
    StaysServed(ctx, w, s, j - 1, i);
  }

  /** An entry that is up to date is served from the lock, whatever its source holds by now: its lock entries stay
      word for word, and every destination ends up with the locked trees. */
  lemma UpToDateIsKept(ctx: Ctx, w: World, i: nat, k: Key)
    requires ctx.Valid() && NamesOnce(ctx, w) && WellKeyed(w.lock) && OneWay(ctx.sources) && i < |ctx.sources|
    requires SyncSkills(ctx, true, w).tally.failed == 0 && UpToDate(ctx, AtTurn(ctx, true, w, i), ctx.sources[i])
    requires AsksAbout(AtTurn(ctx, true, w, i), ctx.sources[i], k)
    ensures var before, after := AtTurn(ctx, true, w, i), SyncSkills(ctx, true, w).world;
      k in before.lock && k in after.lock && after.lock[k] == before.lock[k] && Everywhere(ctx, after, k.skill, before.lock[k].hash.of)
  {
    hide WellKeyed, NamesOnce, OneWay, RunSources, PruneWorld, Fetches, SoundInv, AsksAbout, Retargeted, Lost, AllMatch, Stale, Everywhere;
    var n := |ctx.sources|;
    RunKeepsSound(ctx, w, i);
    SoundHas(ctx, w, RunSources(ctx, true, Start(w), i));
    UpToDateIsServed(ctx, AtTurn(ctx, true, w, i), ctx.sources[i]);
    ServedStays(ctx, w, i, n, k);
    RunKeepsSound(ctx, w, n);
    PruneSpares(ctx, w, RunSources(ctx, true, Start(w), n));
    assert !Outdated(ctx, AtTurn(ctx, true, w, i), ctx.sources[i], k);
    assert SameAt(RunSources(ctx, true, Start(w), n).world.lock, SyncSkills(ctx, true, w).world.lock, k);
    EverywhereMatches(ctx, SyncSkills(ctx, true, w).world, k.skill, AtTurn(ctx, true, w, i).lock[k].hash.of);
  }

  /** A run fails, previewed or applied, exactly when some entry is not up to date at its turn, and may not or
      cannot be fetched. */
  lemma FailsExactly(ctx: Ctx, apply: bool, w: World)
    requires ctx.Valid() && forall i :: 0 <= i < |ctx.sources| ==> WellKeyed(AtTurn(ctx, apply, w, i).lock)
    ensures SyncSkills(ctx, apply, w).tally.failed > 0 <==>
      exists i :: 0 <= i < |ctx.sources| && !UpToDate(ctx, AtTurn(ctx, apply, w, i), ctx.sources[i])
        && (ctx.locked || ctx.fetch(ctx.sources[i]).FetchFailed? || ctx.sources[i].skills == Wildcard(false))
  {
    hide WellKeyed, RunSources, PruneWorld, Stale, UpToDate, SourceFails, AtTurn;
    forall i | 0 <= i < |ctx.sources|
      ensures SourceFails(ctx, AtTurn(ctx, apply, w, i), ctx.sources[i]) <==>
        !UpToDate(ctx, AtTurn(ctx, apply, w, i), ctx.sources[i])
          && (ctx.locked || ctx.fetch(ctx.sources[i]).FetchFailed? || ctx.sources[i].skills == Wildcard(false))
    {
      UpToDateIsServed(ctx, AtTurn(ctx, apply, w, i), ctx.sources[i]);
      FailsOnlyToFetch(ctx, AtTurn(ctx, apply, w, i), ctx.sources[i]);
    }
    if i: nat :| i < |ctx.sources| && SourceFails(ctx, AtTurn(ctx, apply, w, i), ctx.sources[i]) {
      FailedRun(ctx, apply, w, i, |ctx.sources|);
    }
    if RunSources(ctx, apply, Start(w), |ctx.sources|).tally.failed > 0 {
      var i := SomeTurnFailed(ctx, apply, w, |ctx.sources|);
    }
  }

  lemma FailsOnlyToFetch(ctx: Ctx, w: World, src: SourceSpec)
    ensures SourceFails(ctx, w, src) <==>
      Fetches(ctx, w, src) && (ctx.locked || ctx.fetch(src).FetchFailed? || src.skills == Wildcard(false))
  {
    hide SomeGood, HasEntries, UpdateActive;
    if !Satisfiable(w.lock, src) && src.skills.List? {
      var n :| n in ListNames(src.skills.items) && Key(src.source, n) !in w.lock;
      assert n in DesiredNames(w.lock, src) && Unservable(ctx, w, src, n);
    }
  }

  // ------------------------------------------------------------- the counts

  lemma {:induction false} AllGrow(ctx: Ctx, s: State, source: Source, tasks: seq<Task>)
    requires ctx.Valid() && TasksServable(s.world.lock, source, tasks)
    ensures var s' := ProcessAll(ctx, true, s, source, tasks);
      |s'.world.lock| - s'.tally.installed == |s.world.lock| - s.tally.installed
    decreases |tasks|
  {
    hide EntryAfter, AllMatch;
    if tasks != [] {
      var n := |tasks| - 1;
      AllGrow(ctx, s, source, tasks[..n]);
      OneGrows(ctx, ProcessAll(ctx, true, s, source, tasks[..n]), Key(source, tasks[n].name), tasks[n].want);
    }
  }

  lemma OneGrows(ctx: Ctx, s: State, k: Key, want: Wanted)
    requires ctx.Valid() && (want.latest.None? ==> k in s.world.lock)
    ensures var s' := ProcessedOne(ctx, true, s, k, want);
      |s'.world.lock| - s'.tally.installed == |s.world.lock| - s.tally.installed
  {
    hide EntryAfter, AllMatch;
    var lock, lock' := s.world.lock, ProcessedOne(ctx, true, s, k, want).world.lock;
    assert lock'.Keys == lock.Keys + {k};
    assert |lock.Keys| == |lock| && |lock'.Keys| == |lock'|;
  }

  lemma {:induction false} RunGrows(ctx: Ctx, w: World, i: nat)
    requires ctx.Valid() && i <= |ctx.sources|
    ensures var s := RunSources(ctx, true, Start(w), i);
      |s.world.lock| == |w.lock| + s.tally.installed && s.tally.removed == 0
  {
    hide SourceFails, Tasks, ProcessAll, Fetches, Broken;
    if i > 0 {
      RunGrows(ctx, w, i - 1);
      var s, src := RunSources(ctx, true, Start(w), i - 1), ctx.sources[i - 1];
      if !SourceFails(ctx, s.world, src) {
        TasksAreServable(ctx, s.world, src);
        AllGrow(ctx, WithBroken(ctx, s.world, s, src), src.source, Tasks(ctx, s.world, src));
        AllCount(ctx, true, WithBroken(ctx, s.world, s, src), src.source, Tasks(ctx, s.world, src));
      }
    }
  }

  /** What a run counts as installed and removed is what the lock has gained and lost. */
  lemma LockAccounts(ctx: Ctx, w: World)
    requires ctx.Valid()
    ensures var r := SyncSkills(ctx, true, w); |r.world.lock| == |w.lock| + r.tally.installed - r.tally.removed
  {
    hide RunSources;
    RunGrows(ctx, w, |ctx.sources|);
    var s := RunSources(ctx, true, Start(w), |ctx.sources|);
    assert (s.world.lock - Stale(s)).Keys == s.world.lock.Keys - Stale(s);
    assert |s.world.lock.Keys| == |s.world.lock| && |(s.world.lock - Stale(s)).Keys| == |s.world.lock - Stale(s)|;
  }

  lemma {:induction false} ListAccounts(items: seq<Selector>, f: Fetched)
    requires f.Fetched?
    ensures |ListTasks(items, f)| + BrokenCount(items, f) == |items|
  {
    hide Resolve;
    if items != [] { ListAccounts(items[..|items| - 1], f); }
  }

  lemma {:induction false} LockedAccounts(lock: Lock, source: Source, names: seq<Name>)
    requires forall n :: n in names ==> Key(source, n) in lock
    ensures |LockTasks(lock, source, names)| == |names|
  {
    if names != [] {
      var m := |names| - 1;
      assert names[m] in names && forall n :: n in names[..m] ==> n in names;
      LockedAccounts(lock, source, names[..m]);
    }
  }

  /** Every item of a list is counted once, be it installed, updated, unchanged or broken. */
  lemma EveryItemIsCounted(ctx: Ctx, apply: bool, s: State, src: SourceSpec)
    requires ctx.Valid() && src.skills.List? && !SourceFails(ctx, s.world, src)
    ensures var t, t' := s.tally, StepSource(ctx, apply, s, src).tally;
      t'.installed + t'.updated + t'.kept + t'.broken == t.installed + t.updated + t.kept + t.broken + |src.skills.items|
  {
    hide SourceFails, ProcessAll, Unservable, NeedsFetch, UpdateActive, BrokenCount, ListTasks, LockTasks;
    var w, items := s.world, src.skills.items;
    TasksAreServable(ctx, w, src);
    AllCount(ctx, apply, WithBroken(ctx, w, s, src), src.source, Tasks(ctx, w, src));
    if Fetches(ctx, w, src) {
      FetchAsks(ctx, w, src);
      ListAccounts(items, ctx.fetch(src));
    } else {
      DesiredIsLocked(ctx, w, src);
      forall n | n in ItemNames(items) ensures Key(src.source, n) in w.lock { NamesInTurn(w.lock, src, n); }
      LockedAccounts(w.lock, src.source, ItemNames(items));
    }
  }
}
