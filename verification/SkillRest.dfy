/** Why a sync finds nothing to do the second time, even where a skill is asked for more than once. */
module SkillRest {
  import opened Collections
  import opened SkillSync

  // ------------------------------------------------------ one way for each skill

  /** The path a selector gives. */
  function PathOf(s: Selector): Option<SubPath> { if s.ByPath? then s.path else None }

  ghost predicate OneSelector(src: SourceSpec) {
    src.skills.List? ==>
      forall s, t :: s in src.skills.items && t in src.skills.items && s.name == t.name ==> PathOf(s) == PathOf(t)
  }

  /** No skill is asked for in two different ways: entries that cover it are equal, and a list that repeats it
      gives the same path again. */
  ghost predicate OneWay(sources: seq<SourceSpec>) {
    && (forall i :: 0 <= i < |sources| ==> OneSelector(sources[i]))
    && (forall i, j, k :: 0 <= i < |sources| && 0 <= j < |sources| && Covers(sources[i], k) && Covers(sources[j], k) ==>
          sources[i] == sources[j])
  }

  lemma OneCovers(sources: seq<SourceSpec>, i: nat, j: nat, k: Key)
    requires NoKeyTwice(sources) && i < |sources| && j < |sources|
    requires Covers(sources[i], k) && Covers(sources[j], k)
    ensures i == j
  {
  }

  lemma OnceIsOneWay(sources: seq<SourceSpec>)
    requires NoKeyTwice(sources)
    ensures OneWay(sources)
  {
    hide Covers, NoKeyTwice, OneSelector;
    forall i | 0 <= i < |sources| ensures OneSelector(sources[i]) { TidyIsOneSelector(sources, i); }
    forall i, j, k | 0 <= i < |sources| && 0 <= j < |sources| && Covers(sources[i], k) && Covers(sources[j], k)
      ensures sources[i] == sources[j]
    {
      OneCovers(sources, i, j, k);
    }
  }

  lemma TidyIsOneSelector(sources: seq<SourceSpec>, i: nat)
    requires NoKeyTwice(sources) && i < |sources|
    ensures OneSelector(sources[i])
  {
    assert TidySource(sources[i]);
  }

  // -------------------------------------------------- the tasks of one source

  ghost function TaskKeys(source: Source, tasks: seq<Task>): set<Key> {
    set t | t in tasks :: Key(source, t.name)
  }

  /** The keys a source brings up when it looks at `w`. */
  ghost function AskedBy(ctx: Ctx, w: World, src: SourceSpec): set<Key> {
    if SourceFails(ctx, w, src) then {} else TaskKeys(src.source, Tasks(ctx, w, src))
  }

  lemma SamePathSameItem(f: Fetched, s: Selector, t: Selector)
    requires f.Fetched? && s.name == t.name && PathOf(s) == PathOf(t)
    ensures Resolve(f, s) == Resolve(f, t)
  {
  }

  lemma SameNameSameTask(ctx: Ctx, w: World, src: SourceSpec, t: Task, u: Task)
    requires !SourceFails(ctx, w, src) && OneSelector(src)
    requires t in Tasks(ctx, w, src) && u in Tasks(ctx, w, src) && t.name == u.name
    ensures t == u
  {
    if !Fetches(ctx, w, src) {
      LockTaskIsNamed(w.lock, src.source, NameSeq(w.lock, src), t);
      LockTaskIsNamed(w.lock, src.source, NameSeq(w.lock, src), u);
    } else if src.skills.List? {
      var f := ctx.fetch(src);
      ListTaskIsListed(src.skills.items, f, t);
      ListTaskIsListed(src.skills.items, f, u);
      hide Resolve, PathOf, SourceFails, Fetches;
      var a :| a in src.skills.items && Resolve(f, a).Some? && t == Task(a.name, Latest(Resolve(f, a).value, f));
      var b :| b in src.skills.items && Resolve(f, b).Some? && u == Task(b.name, Latest(Resolve(f, b).value, f));
      SamePathSameItem(f, a, b);
    }
  }

  lemma TaskIsCovered(ctx: Ctx, w: World, src: SourceSpec, k: Key)
    requires k in AskedBy(ctx, w, src)
    ensures Covers(src, k) && k.skill in Names(ctx, w, src)
  {
    hide SourceFails, Tasks, Names, Covers;
    var t :| t in Tasks(ctx, w, src) && k == Key(src.source, t.name);
    TaskIsNamed(ctx, w, src, t);
    NamesAreCovered(ctx, w, src, t.name);
  }

  lemma {:induction false} AllDesired(ctx: Ctx, apply: bool, s: State, source: Source, tasks: seq<Task>)
    requires ctx.Valid() && TasksServable(s.world.lock, source, tasks)
    ensures ProcessAll(ctx, apply, s, source, tasks).desired == s.desired + TaskKeys(source, tasks)
    decreases |tasks|
  {
    hide ApplyOne, CountOne;
    if tasks != [] {
      var n := |tasks| - 1;
      AllDesired(ctx, apply, s, source, tasks[..n]);
      assert tasks == tasks[..n] + [tasks[n]];
      assert TaskKeys(source, tasks) == TaskKeys(source, tasks[..n]) + {Key(source, tasks[n].name)};
    }
  }

  /** Off the tasks' keys and names nothing changes. */
  lemma {:induction false} AllElsewhere(ctx: Ctx, s: State, source: Source, tasks: seq<Task>, k: Key, p: Path)
    requires ctx.Valid() && TasksServable(s.world.lock, source, tasks)
    ensures var w' := ProcessAll(ctx, true, s, source, tasks).world;
      && (k !in TaskKeys(source, tasks) ==> SameAt(s.world.lock, w'.lock, k))
      && (Key(source, p.name) !in TaskKeys(source, tasks) ==> SameAt(s.world.disk, w'.disk, p))
    decreases |tasks|
  {
    hide ApplyOne, CountOne;
    if tasks != [] {
      var n := |tasks| - 1;
      AllElsewhere(ctx, s, source, tasks[..n], k, p);
      var part := ProcessAll(ctx, true, s, source, tasks[..n]);
      assert tasks[n] in tasks && forall t :: t in tasks[..n] ==> t in tasks;
      ApplyOneAt(ctx, part.world, Key(source, tasks[n].name), tasks[n].want, k, p);
    }
  }

  // ---------------------------------------------------------------- landed

  /** The lock says of the task's skill what the task wants. */
  ghost predicate Landed(lock: Lock, source: Source, t: Task) {
    var k := Key(source, t.name);
    k in lock && lock[k].hash == Sha(t.want.tree) && (t.want.latest.Some? ==> lock[k].description == t.want.latest.value.0)
  }

  ghost predicate OneEach(tasks: seq<Task>) {
    forall t, u :: t in tasks && u in tasks && t.name == u.name ==> t == u
  }

  lemma OneLands(ctx: Ctx, w: World, k: Key, want: Wanted)
    requires ctx.Valid() && want.latest.Some?
    ensures var e := EntryAfter(ctx, w, k, want); e.hash == Sha(want.tree) && e.description == want.latest.value.0
  {
  }

  lemma {:induction false} LatestLand(ctx: Ctx, s: State, source: Source, tasks: seq<Task>)
    requires ctx.Valid() && OneEach(tasks) && TasksServable(s.world.lock, source, tasks)
    requires forall t :: t in tasks ==> t.want.latest.Some?
    ensures forall t :: t in tasks ==> Landed(ProcessAll(ctx, true, s, source, tasks).world.lock, source, t)
    decreases |tasks|
  {
    hide ApplyOne, CountOne, EntryAfter;
    if tasks != [] {
      var n := |tasks| - 1;
      assert tasks == tasks[..n] + [tasks[n]];
      LatestLand(ctx, s, source, tasks[..n]);
      var part, u := ProcessAll(ctx, true, s, source, tasks[..n]), tasks[n];
      OneLands(ctx, part.world, Key(source, u.name), u.want);
      forall t | t in tasks ensures Landed(ProcessAll(ctx, true, s, source, tasks).world.lock, source, t) {
        ApplyOneAt(ctx, part.world, Key(source, u.name), u.want, Key(source, t.name), Path(ctx.dests[0], t.name));
        if t.name == u.name { assert t == u; } else { assert t in tasks[..n]; }
      }
    }
  }

  lemma AllLand(ctx: Ctx, w0: World, s: State, source: Source, tasks: seq<Task>)
    requires ctx.Valid() && NamesOnce(ctx, w0) && SoundInv(ctx, w0, s) && OneKind(s.world.lock, source, tasks)
    requires TasksServable(s.world.lock, source, tasks) && OneEach(tasks)
    requires forall i :: 0 <= i < |tasks| ==> Involved(ctx, w0, Key(source, tasks[i].name))
    ensures forall t :: t in tasks ==> Landed(ProcessAll(ctx, true, s, source, tasks).world.lock, source, t)
  {
    hide NamesOnce, Involved, SoundInv, ProcessAll, TasksServable, OneEach;
    if i: nat :| i < |tasks| && tasks[i].want.latest.None? {
      AllKeepSound(ctx, w0, s, source, tasks);
      forall t | t in tasks ensures Landed(s.world.lock, source, t) {
        var j :| 0 <= j < |tasks| && tasks[j] == t;
        assert AsLocked(s.world.lock, source, tasks[j]);
      }
    } else {
      LatestLand(ctx, s, source, tasks);
    }
  }

  // ------------------------------------------------------- nothing left to do

  ghost predicate IdleTask(ctx: Ctx, w: World, source: Source, t: Task) {
    Landed(w.lock, source, t) && AllMatch(ctx, w.disk, t.name, Sha(t.want.tree))
  }

  /** The source does not fail, and everything it asks for is in place already. */
  ghost predicate Idle(ctx: Ctx, w: World, src: SourceSpec) {
    !SourceFails(ctx, w, src) && forall t :: t in Tasks(ctx, w, src) ==> IdleTask(ctx, w, src.source, t)
  }

  /** Counts of a run that changes nothing. */
  ghost predicate OnlyKept(t: Tally) {
    t.installed == 0 && t.updated == 0 && t.removed == 0 && t.failed == 0
  }

  lemma IdleOne(ctx: Ctx, s: State, source: Source, t: Task)
    requires ctx.Valid() && IdleTask(ctx, s.world, source, t)
    ensures var s' := ProcessedOne(ctx, true, s, Key(source, t.name), t.want);
      s'.world == s.world && (OnlyKept(s.tally) ==> OnlyKept(s'.tally))
  {
    var k, w, w' := Key(source, t.name), s.world, ProcessedOne(ctx, true, s, Key(source, t.name), t.want).world;
    assert Unchanged(ctx, w, k, t.want.tree) && EntryAfter(ctx, w, k, t.want) == w.lock[k];
    hide EntryAfter, ApplyOne, Unchanged;
    forall x ensures SameAt(w'.lock, w.lock, x) { ApplyOneAt(ctx, w, k, t.want, x, Path(ctx.dests[0], x.skill)); }
    forall p ensures SameAt(w'.disk, w.disk, p) {
      ApplyOneAt(ctx, w, k, t.want, k, p);
      if p.dest in ctx.dests && p.name == k.skill { assert Matches(w.disk, p.dest, k.skill, Sha(t.want.tree)); }
    }
    SameMaps(w'.lock, w.lock);
    SameMaps(w'.disk, w.disk);
  }

  lemma {:induction false} IdleAll(ctx: Ctx, s: State, source: Source, tasks: seq<Task>)
    requires ctx.Valid() && TasksServable(s.world.lock, source, tasks)
    requires forall t :: t in tasks ==> IdleTask(ctx, s.world, source, t)
    ensures var s' := ProcessAll(ctx, true, s, source, tasks);
      s'.world == s.world && (OnlyKept(s.tally) ==> OnlyKept(s'.tally))
    decreases |tasks|
  {
    hide IdleTask, ProcessedOne, OnlyKept;
    if tasks != [] {
      var n := |tasks| - 1;
      assert tasks[n] in tasks && forall t :: t in tasks[..n] ==> t in tasks;
      IdleAll(ctx, s, source, tasks[..n]);
      IdleOne(ctx, ProcessAll(ctx, true, s, source, tasks[..n]), source, tasks[n]);
    }
  }

  lemma IdleStep(ctx: Ctx, s: State, src: SourceSpec)
    requires ctx.Valid() && Idle(ctx, s.world, src)
    ensures var s' := StepSource(ctx, true, s, src);
      && s'.world == s.world && s'.desired == s.desired + AskedBy(ctx, s.world, src)
      && (OnlyKept(s.tally) ==> OnlyKept(s'.tally))
  {
    hide SourceFails, Tasks, IdleTask, ProcessAll, Fetches, Broken, TaskKeys, TasksServable;
    TasksAreServable(ctx, s.world, src);
    var s1 := WithBroken(ctx, s.world, s, src);
    IdleAll(ctx, s1, src.source, Tasks(ctx, s.world, src));
    AllDesired(ctx, true, s1, src.source, Tasks(ctx, s.world, src));
  }

  lemma PrunesNothing(s: State)
    requires s.world.lock.Keys <= s.desired && s.tally.failed == 0
    ensures Prune(true, s) == s
  {
    assert Stale(s) == {};
    var w' := PruneWorld(s);
    forall k ensures SameAt(w'.lock, s.world.lock, k) {}
    forall p ensures SameAt(w'.disk, s.world.disk, p) {}
    SameMaps(w'.lock, s.world.lock);
    SameMaps(w'.disk, s.world.disk);
  }

  // ------------------------------------------------- what a prune would leave

  /** The prune keeps exactly what was asked for, lock entries and directories alike. */
  ghost predicate KeepsAsked(ctx: Ctx, s: State, p: World) {
    && p.lock.Keys == s.desired && WellKeyed(p.lock)
    && (forall k :: k in s.desired ==> SameAt(s.world.lock, p.lock, k))
    && (forall k, d :: k in s.desired ==> SameAt(s.world.disk, p.disk, Path(d, k.skill)))
  }

  lemma PruneSpares(ctx: Ctx, w0: World, s: State)
    requires ctx.Valid() && NamesOnce(ctx, w0) && SoundInv(ctx, w0, s)
    ensures KeepsAsked(ctx, s, PruneWorld(s))
    ensures forall k :: k in s.desired ==> AllMatch(ctx, PruneWorld(s).disk, k.skill, s.world.lock[k].hash)
  {
    hide Involved, Matches;
    var gone := set k | k in Stale(s) :: s.world.lock[k].destination;
    forall k, d | k in s.desired ensures Path(d, k.skill) !in gone {
      forall o | o in Stale(s) ensures s.world.lock[o].destination != Path(d, k.skill) {
        assert Involved(ctx, w0, o) && Involved(ctx, w0, k);
      }
    }
    forall k, d | k in s.desired && d in ctx.dests ensures Matches(PruneWorld(s).disk, d, k.skill, s.world.lock[k].hash) {
      assert Matches(s.world.disk, d, k.skill, s.world.lock[k].hash);
      SameThere(s.world.disk, PruneWorld(s).disk, d, k.skill, s.world.lock[k].hash);
    }
  }

  lemma SameThere(a: Disk, b: Disk, d: Dest, n: Name, h: Hash)
    requires SameAt(a, b, Path(d, n))
    ensures Matches(a, d, n, h) <==> Matches(b, d, n, h)
  {
  }

  // --------------------------------------------------- alike in a source's eyes

  /** `w` and `w'` look the same to `src`, as far as the lock goes. */
  ghost predicate Alike(ctx: Ctx, w: World, w': World, src: SourceSpec) {
    forall k: Key :: Covers(src, k) ==>
      SameAt(w.lock, w'.lock, k) && (k in w.lock ==> forall d :: SameAt(w.disk, w'.disk, Path(d, k.skill)))
  }

  lemma SameNames(lock: Lock, lock': Lock, src: SourceSpec)
    requires WellKeyed(lock) && WellKeyed(lock') && forall k: Key :: Covers(src, k) ==> SameAt(lock, lock', k)
    ensures DesiredNames(lock, src) == DesiredNames(lock', src)
    ensures src.skills.Wildcard? ==> (HasEntries(lock, src.source) <==> HasEntries(lock', src.source))
    ensures Satisfiable(lock, src) <==> Satisfiable(lock', src)
  {
    forall n ensures n in DesiredNames(lock, src) <==> n in DesiredNames(lock', src) {
      if src.skills.Wildcard? {
        if n in DesiredNames(lock, src) {
          var k :| k in lock && lock[k].source == src.source && lock[k].skill == n;
          assert Covers(src, k) && k in lock' && lock'[k].skill == n;
        }
        if n in DesiredNames(lock', src) {
          var k :| k in lock' && lock'[k].source == src.source && lock'[k].skill == n;
          assert Covers(src, k) && k in lock && lock[k].skill == n;
        }
      }
    }
    if src.skills.Wildcard? && HasEntries(lock, src.source) {
      var k :| k in lock && lock[k].source == src.source;
      assert Covers(src, k) && k in lock' && lock'[k].source == src.source;
    }
    if src.skills.Wildcard? && HasEntries(lock', src.source) {
      var k :| k in lock' && lock'[k].source == src.source;
      assert Covers(src, k) && k in lock && lock[k].source == src.source;
    }
    if src.skills.List? {
      forall n | n in ListNames(src.skills.items) ensures SameAt(lock, lock', Key(src.source, n)) {
        assert Covers(src, Key(src.source, n));
      }
    }
  }

  lemma MatchAlike(ctx: Ctx, a: Disk, b: Disk, n: Name, h: Hash)
    requires forall d :: SameAt(a, b, Path(d, n))
    ensures AllMatch(ctx, a, n, h) <==> AllMatch(ctx, b, n, h)
    ensures SomeGood(ctx, a, n, h) <==> SomeGood(ctx, b, n, h)
  {
    hide Matches;
    forall d ensures Matches(a, d, n, h) <==> Matches(b, d, n, h) { SameThere(a, b, d, n, h); }
  }

  lemma DecisionsAlike(ctx: Ctx, w: World, w': World, src: SourceSpec)
    requires WellKeyed(w.lock) && WellKeyed(w'.lock) && Alike(ctx, w, w', src)
    ensures Fetches(ctx, w, src) <==> Fetches(ctx, w', src)
    ensures SourceFails(ctx, w, src) <==> SourceFails(ctx, w', src)
  {
    hide WellKeyed, Covers, HasEntries, Satisfiable, SomeGood, AllMatch;
    SameNames(w.lock, w'.lock, src);
    forall n | n in DesiredNames(w.lock, src) ensures Unservable(ctx, w, src, n) <==> Unservable(ctx, w', src, n) {
      var k := Key(src.source, n);
      NamesAreCovered(ctx, w, src, n);
      assert SameAt(w.lock, w'.lock, k);
      if k in w.lock { MatchAlike(ctx, w.disk, w'.disk, n, w.lock[k].hash); }
    }
  }

  lemma {:induction false} LockTasksAlike(lock: Lock, lock': Lock, source: Source, names: seq<Name>)
    requires forall n :: n in names ==> SameAt(lock, lock', Key(source, n))
    ensures LockTasks(lock, source, names) == LockTasks(lock', source, names)
  {
    if names != [] {
      var m := |names| - 1;
      assert names[m] in names && forall n :: n in names[..m] ==> n in names;
      LockTasksAlike(lock, lock', source, names[..m]);
      assert SameAt(lock, lock', Key(source, names[m]));
    }
  }

  lemma NamesInTurn(lock: Lock, src: SourceSpec, n: Name)
    ensures n in NameSeq(lock, src) <==> n in DesiredNames(lock, src)
  {
    if src.skills.List? {
      var items := src.skills.items;
      if n in ListNames(items) {
        var s :| s in items && s.name == n;
        var i :| 0 <= i < |items| && items[i] == s;
        assert ItemNames(items)[i] == n;
      }
      if n in ItemNames(items) {
        var i :| 0 <= i < |items| && ItemNames(items)[i] == n;
        assert items[i] in items;
      }
    } else {
      ListedIsIn(DesiredNames(lock, src));
    }
  }

  lemma TasksAlike(ctx: Ctx, w: World, w': World, src: SourceSpec)
    requires WellKeyed(w.lock) && WellKeyed(w'.lock) && Alike(ctx, w, w', src) && !SourceFails(ctx, w, src)
    ensures !SourceFails(ctx, w', src) && Tasks(ctx, w, src) == Tasks(ctx, w', src)
  {
    hide WellKeyed, Covers, SourceFails, Fetches, FetchTasks, LockTasks;
    DecisionsAlike(ctx, w, w', src);
    SameNames(w.lock, w'.lock, src);
    assert NameSeq(w.lock, src) == NameSeq(w'.lock, src);
    forall n | n in NameSeq(w.lock, src) ensures SameAt(w.lock, w'.lock, Key(src.source, n)) {
      NamesInTurn(w.lock, src, n);
      NamesAreCovered(ctx, w, src, n);
    }
    LockTasksAlike(w.lock, w'.lock, src.source, NameSeq(w.lock, src));
  }

  lemma IdleAlike(ctx: Ctx, w: World, w': World, src: SourceSpec)
    requires WellKeyed(w.lock) && WellKeyed(w'.lock) && Alike(ctx, w, w', src) && Idle(ctx, w, src)
    ensures Idle(ctx, w', src) && AskedBy(ctx, w', src) == AskedBy(ctx, w, src)
  {
    hide WellKeyed, Covers, SourceFails, Tasks, Names, AllMatch, SomeGood;
    TasksAlike(ctx, w, w', src);
    forall t | t in Tasks(ctx, w', src) ensures IdleTask(ctx, w', src.source, t) {
      var k := Key(src.source, t.name);
      assert IdleTask(ctx, w, src.source, t) && k in AskedBy(ctx, w, src);
      TaskIsCovered(ctx, w, src, k);
      assert SameAt(w.lock, w'.lock, k);
      MatchAlike(ctx, w.disk, w'.disk, t.name, Sha(t.want.tree));
    }
  }

  // --------------------------------------------------------------- at rest

  /** What was asked for so far of the keys `src` covers. */
  ghost function Mine(s: State, src: SourceSpec): set<Key> {
    set k | k in s.desired && Covers(src, k)
  }

  /** Everything locked for the source was asked for. */
  ghost predicate Full(s: State, src: SourceSpec) {
    forall k :: k in s.world.lock && k.source == src.source ==> k in s.desired
  }

  /** A wildcard's share is either all that is locked of its source or all that a fetch offers. */
  ghost predicate Whole(ctx: Ctx, s: State, src: SourceSpec) {
    src.skills.Wildcard? ==>
      Full(s, src) || (ctx.fetch(src).Fetched? && Mine(s, src) == TaskKeys(src.source, FetchTasks(src, ctx.fetch(src))))
  }

  /** In the world a prune would leave now, `src` would find all in place and ask for its share again. */
  ghost predicate Rests(ctx: Ctx, s: State, src: SourceSpec) {
    var p := PruneWorld(s);
    Idle(ctx, p, src) && AskedBy(ctx, p, src) == Mine(s, src) && Whole(ctx, s, src)
  }

  lemma StepDoes(ctx: Ctx, w0: World, s: State, i: nat)
    requires ctx.Valid() && NamesOnce(ctx, w0) && i < |ctx.sources| && SoundInv(ctx, w0, s)
    requires OneSelector(ctx.sources[i]) && !SourceFails(ctx, s.world, ctx.sources[i])
    ensures var src := ctx.sources[i]; var s' := StepSource(ctx, true, s, src);
      && SoundInv(ctx, w0, s') && s'.tally.failed == s.tally.failed
      && s'.desired == s.desired + AskedBy(ctx, s.world, src)
      && (forall t :: t in Tasks(ctx, s.world, src) ==> Landed(s'.world.lock, src.source, t))
      && (!Fetches(ctx, s.world, src) ==> s'.world.lock == s.world.lock)
  {
    hide Involved, NamesOnce, SourceFails, ProcessAll, Fetches, OneKind, Broken, Landed, OneSelector, SoundInv, FetchTasks, LockTasks,
      NameSeq, TaskKeys, TasksServable;
    var src := ctx.sources[i];
    var tasks, s1 := Tasks(ctx, s.world, src), WithBroken(ctx, s.world, s, src);
    TasksAreServable(ctx, s.world, src);
    OneKindOfTask(ctx, s.world, src);
    StepKeepsSound(ctx, w0, s, i);
    SoundStays(ctx, w0, s, s1);
    forall j | 0 <= j < |tasks| ensures Involved(ctx, w0, Key(src.source, tasks[j].name)) {
      SoundHas(ctx, w0, s);
      TaskIsInvolved(ctx, w0, s.world, i, tasks[j]);
    }
    forall t, u | t in tasks && u in tasks && t.name == u.name ensures t == u {
      SameNameSameTask(ctx, s.world, src, t, u);
    }
    AllLand(ctx, w0, s1, src.source, tasks);
    AllKeepSound(ctx, w0, s1, src.source, tasks);
    AllDesired(ctx, true, s1, src.source, tasks);
    if !Fetches(ctx, s.world, src) {
      LockTasksAreLocked(s.world.lock, src.source, NameSeq(s.world.lock, src));
      if tasks == [] { NothingDone(ctx, s1, src.source); } else { assert AsLocked(s.world.lock, src.source, tasks[0]); }
    }
  }

  lemma SoundStays(ctx: Ctx, w0: World, s: State, s1: State)
    requires SoundInv(ctx, w0, s) && s1.world == s.world && s1.desired == s.desired
    ensures SoundInv(ctx, w0, s1)
  {
  }

  lemma SoundHas(ctx: Ctx, w0: World, s: State)
    requires SoundInv(ctx, w0, s)
    ensures WellKeyed(s.world.lock) && (forall k :: k in s.world.lock ==> Involved(ctx, w0, k)) && s.desired <= s.world.lock.Keys
  {
    hide WellKeyed, Involved;
  }

  lemma NothingDone(ctx: Ctx, s: State, source: Source)
    requires ctx.Valid()
    ensures TasksServable(s.world.lock, source, []) && ProcessAll(ctx, true, s, source, []) == s
  {
  }

  /** After its step, what a source asked for is in place, and stays so under the prune. */
  lemma LandedIsIdle(ctx: Ctx, w0: World, s: State, source: Source, t: Task)
    requires ctx.Valid() && NamesOnce(ctx, w0) && SoundInv(ctx, w0, s)
    requires Landed(s.world.lock, source, t) && Key(source, t.name) in s.desired
    ensures IdleTask(ctx, PruneWorld(s), source, t)
  {
    hide NamesOnce, SoundInv, AllMatch;
    PruneSpares(ctx, w0, s);
    assert SameAt(s.world.lock, PruneWorld(s).lock, Key(source, t.name));
  }

  lemma {:induction false} LockTaskFor(lock: Lock, source: Source, names: seq<Name>, n: Name)
    requires n in names && Key(source, n) in lock
    ensures Task(n, Wanted(lock[Key(source, n)].hash.of, None)) in LockTasks(lock, source, names)
  {
    var m := |names| - 1;
    if n != names[m] { LockTaskFor(lock, source, names[..m], n); }
  }

  lemma CoveredAndLocked(ctx: Ctx, w: World, src: SourceSpec, k: Key)
    requires WellKeyed(w.lock) && k in w.lock
    ensures Covers(src, k) <==> k.source == src.source && k.skill in DesiredNames(w.lock, src)
  {
    assert src.skills.Wildcard? && k.source == src.source ==> w.lock[k].skill in DesiredNames(w.lock, src);
  }

  /** Served from the lock, a source finds all in place and asks for all that is locked of it. */
  lemma LockServesShare(ctx: Ctx, w0: World, s: State, src: SourceSpec)
    requires ctx.Valid() && NamesOnce(ctx, w0) && SoundInv(ctx, w0, s)
    requires !Fetches(ctx, PruneWorld(s), src) && !SourceFails(ctx, PruneWorld(s), src)
    ensures Idle(ctx, PruneWorld(s), src) && AskedBy(ctx, PruneWorld(s), src) == Mine(s, src)
  {
    hide NamesOnce, SoundInv, Fetches, SourceFails, WellKeyed, NameSeq, DesiredNames, Covers, PruneWorld, Names;
    PruneSpares(ctx, w0, s);
    var p := PruneWorld(s);
    var tasks := LockTasks(p.lock, src.source, NameSeq(p.lock, src));
    assert Tasks(ctx, p, src) == tasks;
    forall t | t in tasks ensures IdleTask(ctx, p, src.source, t) {
      LockTaskIsNamed(p.lock, src.source, NameSeq(p.lock, src), t);
      LockedIsIdle(ctx, s, p, src.source, t);
    }
    forall k ensures k in AskedBy(ctx, p, src) <==> k in Mine(s, src) {
      if k in AskedBy(ctx, p, src) {
        TaskIsCovered(ctx, p, src, k);
        var t :| t in tasks && k == Key(src.source, t.name);
        LockTaskIsNamed(p.lock, src.source, NameSeq(p.lock, src), t);
      }
      if k in Mine(s, src) {
        CoveredAndLocked(ctx, p, src, k);
        NamesInTurn(p.lock, src, k.skill);
        LockTaskFor(p.lock, src.source, NameSeq(p.lock, src), k.skill);
        assert k == Key(src.source, k.skill);
      }
    }
  }

  lemma LockedIsIdle(ctx: Ctx, s: State, p: World, source: Source, t: Task)
    requires Key(source, t.name) in p.lock && t.want == Wanted(p.lock[Key(source, t.name)].hash.of, None)
    requires KeepsAsked(ctx, s, p) && forall k :: k in s.desired ==> k in s.world.lock && AllMatch(ctx, p.disk, k.skill, s.world.lock[k].hash)
    ensures IdleTask(ctx, p, source, t)
  {
    hide AllMatch, WellKeyed;
    assert SameAt(s.world.lock, p.lock, Key(source, t.name));
  }

  lemma MineGrows(ctx: Ctx, s: State, s': State, w: World, src: SourceSpec)
    requires s'.desired == s.desired + AskedBy(ctx, w, src)
    ensures Mine(s', src) == Mine(s, src) + AskedBy(ctx, w, src)
  {
    hide Covers, AskedBy, Names;
    forall k | k in AskedBy(ctx, w, src) ensures Covers(src, k) { TaskIsCovered(ctx, w, src, k); }
  }

  lemma DesiredIsLocked(ctx: Ctx, w: World, src: SourceSpec)
    requires !NeedsFetch(ctx, w, src)
    ensures forall n :: n in DesiredNames(w.lock, src) ==> Key(src.source, n) in w.lock && !Unservable(ctx, w, src, n)
    ensures src.skills.Wildcard? ==> HasEntries(w.lock, src.source)
  {
    hide HasEntries, DesiredNames, SomeGood;
    forall n | n in DesiredNames(w.lock, src) ensures !Unservable(ctx, w, src, n) {}
  }

  /** Served from the lock, a source asks for all it desires. */
  lemma ServedAsks(ctx: Ctx, w: World, src: SourceSpec, n: Name)
    requires !SourceFails(ctx, w, src) && !Fetches(ctx, w, src) && n in DesiredNames(w.lock, src)
    ensures Key(src.source, n) in AskedBy(ctx, w, src)
  {
    hide DesiredNames, Unservable, NameSeq, SourceFails;
    DesiredIsLocked(ctx, w, src);
    NamesInTurn(w.lock, src, n);
    LockTaskFor(w.lock, src.source, NameSeq(w.lock, src), n);
    assert Tasks(ctx, w, src) == LockTasks(w.lock, src.source, NameSeq(w.lock, src));
  }

  /** A step from the lock leaves the source's desired names what they were, also after a prune. */
  lemma ServedNames(ctx: Ctx, w0: World, s: State, i: nat)
    requires ctx.Valid() && NamesOnce(ctx, w0) && i < |ctx.sources| && SoundInv(ctx, w0, s) && OneSelector(ctx.sources[i])
    requires !SourceFails(ctx, s.world, ctx.sources[i]) && !Fetches(ctx, s.world, ctx.sources[i])
    ensures var src := ctx.sources[i]; var p := PruneWorld(StepSource(ctx, true, s, src));
      forall k: Key :: Covers(src, k) ==> SameAt(s.world.lock, p.lock, k)
  {
    hide NamesOnce, SoundInv, Fetches, SourceFails, WellKeyed, DesiredNames, Covers, PruneWorld, StepSource, Involved, AskedBy, Landed, OneSelector, AllMatch;
    var src := ctx.sources[i];
    var s' := StepSource(ctx, true, s, src);
    StepDoes(ctx, w0, s, i);
    SoundHas(ctx, w0, s);
    PruneSpares(ctx, w0, s');
    forall k: Key | Covers(src, k) ensures SameAt(s.world.lock, PruneWorld(s').lock, k) {
      if k in s.world.lock {
        CoveredAndLocked(ctx, s.world, src, k);
        ServedAsks(ctx, s.world, src, k.skill);
        assert k == Key(src.source, k.skill) && k in s'.desired;
        assert SameAt(s'.world.lock, PruneWorld(s').lock, k);
      } else {
        assert k !in PruneWorld(s').lock by { SoundHas(ctx, w0, s'); }
      }
    }
  }

  lemma GoodAfter(ctx: Ctx, disk: Disk, n: Name, h: Hash)
    requires ctx.Valid() && AllMatch(ctx, disk, n, h)
    ensures SomeGood(ctx, disk, n, h)
  {
    assert Matches(disk, ctx.dests[0], n, h);
  }

  /** What the lock served once it can serve again. */
  lemma ServedAgain(ctx: Ctx, w0: World, s: State, i: nat)
    requires ctx.Valid() && NamesOnce(ctx, w0) && i < |ctx.sources| && SoundInv(ctx, w0, s) && OneSelector(ctx.sources[i])
    requires !SourceFails(ctx, s.world, ctx.sources[i]) && !Fetches(ctx, s.world, ctx.sources[i])
    ensures var src := ctx.sources[i]; var p := PruneWorld(StepSource(ctx, true, s, src));
      !Fetches(ctx, p, src) && !SourceFails(ctx, p, src)
  {
    hide NamesOnce, SoundInv, WellKeyed, DesiredNames, Covers, PruneWorld, StepSource, Involved, AskedBy, Landed, OneSelector, AllMatch, SomeGood,
      HasEntries;
    var src := ctx.sources[i];
    var s' := StepSource(ctx, true, s, src);
    var p := PruneWorld(s');
    StepDoes(ctx, w0, s, i);
    SoundHas(ctx, w0, s);
    SoundHas(ctx, w0, s');
    PruneSpares(ctx, w0, s');
    ServedNames(ctx, w0, s, i);
    SameNames(s.world.lock, p.lock, src);
    DesiredIsLocked(ctx, s.world, src);
    forall n | n in DesiredNames(p.lock, src) ensures !Unservable(ctx, p, src, n) {
      var k := Key(src.source, n);
      NamesAreCovered(ctx, s.world, src, n);
      ServedAsks(ctx, s.world, src, n);
      assert SameAt(s.world.lock, p.lock, k);
      GoodAfter(ctx, p.disk, n, s'.world.lock[k].hash);
    }
  }

  lemma ServedIsFull(ctx: Ctx, w0: World, s: State, i: nat)
    requires ctx.Valid() && NamesOnce(ctx, w0) && i < |ctx.sources| && SoundInv(ctx, w0, s) && OneSelector(ctx.sources[i])
    requires !SourceFails(ctx, s.world, ctx.sources[i]) && !Fetches(ctx, s.world, ctx.sources[i])
    ensures ctx.sources[i].skills.Wildcard? ==> Full(StepSource(ctx, true, s, ctx.sources[i]), ctx.sources[i])
  {
    hide NamesOnce, SoundInv, WellKeyed, DesiredNames, PruneWorld, StepSource, Involved, AskedBy, Landed, OneSelector, Fetches,
      SourceFails, FetchTasks;
    var src := ctx.sources[i];
    var s' := StepSource(ctx, true, s, src);
    StepDoes(ctx, w0, s, i);
    SoundHas(ctx, w0, s);
    forall k | src.skills.Wildcard? && k in s'.world.lock && k.source == src.source ensures k in s'.desired {
      CoveredAndLocked(ctx, s.world, src, k);
      ServedAsks(ctx, s.world, src, k.skill);
      assert k == Key(src.source, k.skill);
    }
  }

  /** After a step from the lock the source rests. */
  lemma ServedRests(ctx: Ctx, w0: World, s: State, i: nat)
    requires ctx.Valid() && NamesOnce(ctx, w0) && i < |ctx.sources| && SoundInv(ctx, w0, s) && OneSelector(ctx.sources[i])
    requires !SourceFails(ctx, s.world, ctx.sources[i]) && !Fetches(ctx, s.world, ctx.sources[i])
    ensures Rests(ctx, StepSource(ctx, true, s, ctx.sources[i]), ctx.sources[i])
  {
    hide NamesOnce, SoundInv, WellKeyed, DesiredNames, PruneWorld, StepSource, Involved, AskedBy, Landed, OneSelector, Idle, Fetches,
      SourceFails, FetchTasks, AllMatch, Full, Mine, Tasks;
    StepDoes(ctx, w0, s, i);
    ServedAgain(ctx, w0, s, i);
    LockServesShare(ctx, w0, StepSource(ctx, true, s, ctx.sources[i]), ctx.sources[i]);
    ServedIsFull(ctx, w0, s, i);
  }

  /** A source that fetches, and has all that is locked of it asked for, would fetch after a prune too. */
  lemma FetchPersists(ctx: Ctx, w0: World, s: State, src: SourceSpec)
    requires ctx.Valid() && NamesOnce(ctx, w0) && SoundInv(ctx, w0, s) && (src.skills.Wildcard? ==> Full(s, src))
    requires Fetches(ctx, s.world, src)
    ensures Fetches(ctx, PruneWorld(s), src)
  {
    hide NamesOnce, SoundInv, WellKeyed, PruneWorld, Involved, Covers, AllMatch, DesiredNames, HasEntries, SomeGood;
    var p := PruneWorld(s);
    PruneSpares(ctx, w0, s);
    SoundHas(ctx, w0, s);
    if src.skills.Wildcard? {
      FullIsAlike(ctx, w0, s, src);
      DecisionsAlike(ctx, s.world, p, src);
    } else if !UpdateActive(ctx, DesiredNames(s.world.lock, src)) {
      ListAsks(s.world.lock, p.lock, src);
      var n :| n in DesiredNames(s.world.lock, src) && Unservable(ctx, s.world, src, n);
      var k := Key(src.source, n);
      if k in s.desired {
        assert SameAt(s.world.lock, p.lock, k);
        MatchAlike(ctx, s.world.disk, p.disk, n, p.lock[k].hash);
      }
      assert Unservable(ctx, p, src, n);
    } else {
      ListAsks(s.world.lock, p.lock, src);
    }
  }

  lemma ListAsks(lock: Lock, lock': Lock, src: SourceSpec)
    requires src.skills.List?
    ensures DesiredNames(lock, src) == DesiredNames(lock', src)
  {
  }

  lemma FullIsAlike(ctx: Ctx, w0: World, s: State, src: SourceSpec)
    requires ctx.Valid() && NamesOnce(ctx, w0) && SoundInv(ctx, w0, s) && src.skills.Wildcard? && Full(s, src)
    ensures Alike(ctx, s.world, PruneWorld(s), src)
  {
    hide NamesOnce, SoundInv, WellKeyed, PruneWorld, Involved, AllMatch;
    PruneSpares(ctx, w0, s);
    SoundHas(ctx, w0, s);
  }

  /** What a fetch offers, whatever the world looks like. */
  lemma FetchAsks(ctx: Ctx, w: World, src: SourceSpec)
    requires Fetches(ctx, w, src) && !SourceFails(ctx, w, src)
    ensures ctx.fetch(src).Fetched? && !ctx.locked && src.skills != Wildcard(false)
    ensures Tasks(ctx, w, src) == FetchTasks(src, ctx.fetch(src))
  {
    hide Fetches, FetchTasks;
  }

  /** What was asked for before is what the fetch offers now. */
  lemma FetchRepeats(ctx: Ctx, w0: World, s: State, src: SourceSpec)
    requires ctx.Valid() && NamesOnce(ctx, w0) && SoundInv(ctx, w0, s)
    requires !SourceFails(ctx, s.world, src) && Fetches(ctx, s.world, src) && (Mine(s, src) == {} || Rests(ctx, s, src))
    ensures ctx.fetch(src).Fetched? && Mine(s, src) <= TaskKeys(src.source, FetchTasks(src, ctx.fetch(src)))
  {
    hide NamesOnce, SoundInv, PruneWorld, Fetches, SourceFails, Mine, FetchTasks, Full, TaskKeys, Tasks;
    FetchAsks(ctx, s.world, src);
    if Rests(ctx, s, src) && (src.skills.Wildcard? ==> Full(s, src)) {
      FetchPersists(ctx, w0, s, src);
      FetchAsks(ctx, PruneWorld(s), src);
    }
  }

  /** After a step with a fetch the source rests. */
  lemma FetchedRests(ctx: Ctx, w0: World, s: State, i: nat)
    requires ctx.Valid() && NamesOnce(ctx, w0) && i < |ctx.sources| && SoundInv(ctx, w0, s) && OneSelector(ctx.sources[i])
    requires !SourceFails(ctx, s.world, ctx.sources[i]) && Fetches(ctx, s.world, ctx.sources[i])
    requires Mine(s, ctx.sources[i]) == {} || Rests(ctx, s, ctx.sources[i])
    ensures Rests(ctx, StepSource(ctx, true, s, ctx.sources[i]), ctx.sources[i])
  {
    hide NamesOnce, SoundInv, PruneWorld, StepSource, Involved, Landed, OneSelector, Fetches, FetchTasks, Mine, Full, TaskKeys, IdleTask;
    var src := ctx.sources[i];
    var s' := StepSource(ctx, true, s, src);
    var p := PruneWorld(s');
    FetchRepeats(ctx, w0, s, src);
    FetchAsks(ctx, s.world, src);
    StepDoes(ctx, w0, s, i);
    MineGrows(ctx, s, s', s.world, src);
    var tasks := FetchTasks(src, ctx.fetch(src));
    assert Mine(s', src) == TaskKeys(src.source, tasks);
    if Fetches(ctx, p, src) {
      assert !SourceFails(ctx, p, src);
      FetchAsks(ctx, p, src);
      forall t | t in tasks ensures IdleTask(ctx, p, src.source, t) {
        HasKey(src.source, tasks, t);
        LandedIsIdle(ctx, w0, s', src.source, t);
      }
    } else {
      assert !SourceFails(ctx, p, src);
      LockServesShare(ctx, w0, s', src);
    }
  }

  lemma HasKey(source: Source, tasks: seq<Task>, t: Task)
    requires t in tasks
    ensures Key(source, t.name) in TaskKeys(source, tasks)
  {
  }

  // ------------------------------------------------------- the other sources

  lemma StepElsewhere(ctx: Ctx, s: State, src: SourceSpec, k: Key, p: Path)
    requires ctx.Valid() && !SourceFails(ctx, s.world, src)
    ensures var s' := StepSource(ctx, true, s, src);
      && (k !in AskedBy(ctx, s.world, src) ==> SameAt(s.world.lock, s'.world.lock, k))
      && (Key(src.source, p.name) !in AskedBy(ctx, s.world, src) ==> SameAt(s.world.disk, s'.world.disk, p))
  {
    hide SourceFails, Tasks, ProcessAll, Fetches, Broken, TaskKeys;
    TasksAreServable(ctx, s.world, src);
    AllElsewhere(ctx, WithBroken(ctx, s.world, s, src), src.source, Tasks(ctx, s.world, src), k, p);
  }

  ghost predicate NoneShared(src: SourceSpec, other: SourceSpec) {
    forall k :: Covers(src, k) ==> !Covers(other, k)
  }

  lemma NotAsked(ctx: Ctx, w: World, src: SourceSpec, other: SourceSpec, k: Key)
    requires NoneShared(src, other) && Covers(src, k)
    ensures k !in AskedBy(ctx, w, other)
  {
    hide AskedBy, Covers, Names;
    if k in AskedBy(ctx, w, other) { TaskIsCovered(ctx, w, other, k); }
  }

  lemma NamesDiffer(ctx: Ctx, w0: World, s: State, src: SourceSpec, other: SourceSpec, k: Key, k2: Key)
    requires NamesOnce(ctx, w0) && SoundInv(ctx, w0, s) && k in s.world.lock && k2 in s.world.lock
    requires NoneShared(src, other) && Covers(src, k) && Covers(other, k2)
    ensures k.skill != k2.skill
  {
    hide Involved, WellKeyed, InStep, Covers;
    assert Involved(ctx, w0, k2) && Involved(ctx, w0, k);
  }

  /** Another entry's step does not reach what `src` covers, not even where the prune would come. */
  lemma OtherStepIsAlike(ctx: Ctx, w0: World, s: State, i: nat, src: SourceSpec)
    requires ctx.Valid() && NamesOnce(ctx, w0) && i < |ctx.sources| && SoundInv(ctx, w0, s) && OneSelector(ctx.sources[i])
    requires !SourceFails(ctx, s.world, ctx.sources[i]) && NoneShared(src, ctx.sources[i])
    ensures var s' := StepSource(ctx, true, s, ctx.sources[i]);
      && (forall k :: Covers(src, k) ==> SameAt(s.world.lock, s'.world.lock, k) && (k in s.desired <==> k in s'.desired))
      && Alike(ctx, PruneWorld(s), PruneWorld(s'), src)
  {
    hide SoundInv, NamesOnce, NoneShared, WellKeyed, PruneWorld, StepSource, Involved, AskedBy, Landed, OneSelector, Covers, SourceFails,
      AllMatch, Tasks, Names;
    var other := ctx.sources[i];
    var s' := StepSource(ctx, true, s, other);
    StepDoes(ctx, w0, s, i);
    SoundHas(ctx, w0, s);
    SoundHas(ctx, w0, s');
    PruneSpares(ctx, w0, s);
    PruneSpares(ctx, w0, s');
    var p, p' := PruneWorld(s), PruneWorld(s');
    forall k | Covers(src, k)
      ensures SameAt(s.world.lock, s'.world.lock, k) && (k in s.desired <==> k in s'.desired)
      ensures SameAt(p.lock, p'.lock, k) && (k in p.lock ==> forall d :: SameAt(p.disk, p'.disk, Path(d, k.skill)))
    {
      NotAsked(ctx, s.world, src, other, k);
      StepElsewhere(ctx, s, other, k, Path(ctx.dests[0], k.skill));
      if k in s.desired {
        assert SameAt(s.world.lock, p.lock, k) && SameAt(s'.world.lock, p'.lock, k);
        var k2 := Key(other.source, k.skill);
        if k2 in AskedBy(ctx, s.world, other) {
          TaskIsCovered(ctx, s.world, other, k2);
          NamesDiffer(ctx, w0, s', src, other, k, k2);
        }
        forall d ensures SameAt(p.disk, p'.disk, Path(d, k.skill)) {
          StepElsewhere(ctx, s, other, k, Path(d, k.skill));
          assert SameAt(s.world.disk, p.disk, Path(d, k.skill)) && SameAt(s'.world.disk, p'.disk, Path(d, k.skill));
        }
      }
    }
  }

  lemma OtherStepRests(ctx: Ctx, w0: World, s: State, i: nat, src: SourceSpec)
    requires ctx.Valid() && NamesOnce(ctx, w0) && i < |ctx.sources| && SoundInv(ctx, w0, s) && OneSelector(ctx.sources[i])
    requires !SourceFails(ctx, s.world, ctx.sources[i]) && NoneShared(src, ctx.sources[i])
    ensures var s' := StepSource(ctx, true, s, ctx.sources[i]);
      Mine(s', src) == Mine(s, src) && (Rests(ctx, s, src) ==> Rests(ctx, s', src))
  {
    hide SoundInv, NamesOnce, WellKeyed, PruneWorld, StepSource, AskedBy, OneSelector, SourceFails, Alike, Idle, NoneShared, TaskKeys,
      FetchTasks, AllMatch;
    var s' := StepSource(ctx, true, s, ctx.sources[i]);
    OtherStepIsAlike(ctx, w0, s, i, src);
    StepDoes(ctx, w0, s, i);
    PruneSpares(ctx, w0, s);
    PruneSpares(ctx, w0, s');
    assert Mine(s', src) == Mine(s, src);
    if Rests(ctx, s, src) {
      IdleAlike(ctx, PruneWorld(s), PruneWorld(s'), src);
      if src.skills.Wildcard? && Full(s, src) {
        forall k | k in s'.world.lock && k.source == src.source ensures k in s'.desired { assert Covers(src, k); }
      }
    }
  }

  // ------------------------------------------------------------ the whole run

  /** The entries that have had their turn rest, and nothing was asked for of the others. */
  ghost predicate RestSoFar(ctx: Ctx, s: State, i: nat)
    requires i <= |ctx.sources|
  {
    && (forall j :: 0 <= j < |ctx.sources| ==>
          if ctx.sources[j] in ctx.sources[..i] then Rests(ctx, s, ctx.sources[j]) else Mine(s, ctx.sources[j]) == {})
    && (forall k :: k in s.desired ==> exists j :: 0 <= j < i && Covers(ctx.sources[j], k))
  }

  lemma OwnStepRests(ctx: Ctx, w0: World, s: State, i: nat)
    requires ctx.Valid() && NamesOnce(ctx, w0) && i < |ctx.sources| && SoundInv(ctx, w0, s) && OneSelector(ctx.sources[i])
    requires !SourceFails(ctx, s.world, ctx.sources[i]) && (Mine(s, ctx.sources[i]) == {} || Rests(ctx, s, ctx.sources[i]))
    ensures Rests(ctx, StepSource(ctx, true, s, ctx.sources[i]), ctx.sources[i])
  {
    hide SoundInv, NamesOnce, Mine, StepSource, OneSelector, SourceFails, Rests, Fetches;
    if Fetches(ctx, s.world, ctx.sources[i]) { FetchedRests(ctx, w0, s, i); } else { ServedRests(ctx, w0, s, i); }
  }

  lemma EqualOrApart(sources: seq<SourceSpec>, i: nat, j: nat)
    requires OneWay(sources) && i < |sources| && j < |sources|
    ensures OneSelector(sources[i]) && (sources[i] == sources[j] || NoneShared(sources[j], sources[i]))
  {
    hide Covers, OneSelector;
  }

  lemma StepRests(ctx: Ctx, w0: World, s: State, i: nat)
    requires ctx.Valid() && NamesOnce(ctx, w0) && i < |ctx.sources| && SoundInv(ctx, w0, s) && OneWay(ctx.sources)
    requires !SourceFails(ctx, s.world, ctx.sources[i]) && RestSoFar(ctx, s, i)
    ensures RestSoFar(ctx, StepSource(ctx, true, s, ctx.sources[i]), i + 1)
  {
    hide SoundInv, NamesOnce, Mine, StepSource, OneSelector, SourceFails, Rests, Covers, NoneShared, OneWay, AskedBy, Tasks, Fetches, Names, Landed;
    var src := ctx.sources[i];
    var s' := StepSource(ctx, true, s, src);
    assert ctx.sources[..i + 1] == ctx.sources[..i] + [src];
    EqualOrApart(ctx.sources, i, i);
    forall j | 0 <= j < |ctx.sources|
      ensures if ctx.sources[j] in ctx.sources[..i + 1] then Rests(ctx, s', ctx.sources[j]) else Mine(s', ctx.sources[j]) == {}
    {
      EqualOrApart(ctx.sources, i, j);
      if ctx.sources[j] == src { OwnStepRests(ctx, w0, s, i); } else { OtherStepRests(ctx, w0, s, i, ctx.sources[j]); }
    }
    StepDoes(ctx, w0, s, i);
    forall k | k in s'.desired ensures exists j :: 0 <= j < i + 1 && Covers(ctx.sources[j], k) {
      if k in AskedBy(ctx, s.world, src) {
        TaskIsCovered(ctx, s.world, src, k);
      } else {
        var j :| 0 <= j < i && Covers(ctx.sources[j], k);
      }
    }
  }

  lemma FailureCounts(ctx: Ctx, s: State, src: SourceSpec)
    requires ctx.Valid() && SourceFails(ctx, s.world, src)
    ensures StepSource(ctx, true, s, src).tally.failed > 0
  {
    hide SourceFails;
  }

  lemma StartRests(ctx: Ctx, w: World)
    ensures RestSoFar(ctx, Start(w), 0)
  {
    hide Rests, Covers;
  }

  lemma {:induction false} RunRests(ctx: Ctx, w: World, i: nat)
    requires ctx.Valid() && NamesOnce(ctx, w) && WellKeyed(w.lock) && OneWay(ctx.sources) && i <= |ctx.sources|
    requires RunSources(ctx, true, Start(w), i).tally.failed == 0
    ensures RestSoFar(ctx, RunSources(ctx, true, Start(w), i), i)
  {
    hide WellKeyed, StepSource, NamesOnce, SoundInv, SourceFails, RestSoFar, OneWay, OneSelector, Landed, AskedBy, Tasks, Fetches;
    if i == 0 {
      StartRests(ctx, w);
    } else {
      var s := RunSources(ctx, true, Start(w), i - 1);
      RunKeepsSound(ctx, w, i - 1);
      EqualOrApart(ctx.sources, i - 1, i - 1);
      if SourceFails(ctx, s.world, ctx.sources[i - 1]) { FailureCounts(ctx, s, ctx.sources[i - 1]); }
      StepDoes(ctx, w, s, i - 1);
      RunRests(ctx, w, i - 1);
      StepRests(ctx, w, s, i - 1);
    }
  }

  /** Nothing that is locked of it is left over, and a prune would leave it nothing to fetch. */
  ghost predicate ServedSoFar(ctx: Ctx, s: State, src: SourceSpec) {
    !Fetches(ctx, PruneWorld(s), src) && (src.skills.Wildcard? ==> Full(s, src))
  }

  lemma StaysServed(ctx: Ctx, w0: World, s: State, i: nat, j: nat)
    requires ctx.Valid() && NamesOnce(ctx, w0) && i < |ctx.sources| && SoundInv(ctx, w0, s) && OneWay(ctx.sources)
    requires !SourceFails(ctx, s.world, ctx.sources[i]) && j < |ctx.sources|
    requires if i == j then !Fetches(ctx, s.world, ctx.sources[j]) else ServedSoFar(ctx, s, ctx.sources[j])
    ensures ServedSoFar(ctx, StepSource(ctx, true, s, ctx.sources[i]), ctx.sources[j])
  {
    hide SoundInv, NamesOnce, StepSource, OneSelector, SourceFails, Covers, NoneShared, OneWay, Fetches, PruneWorld, Alike, Landed, AskedBy, Tasks, Full;
    var src := ctx.sources[j];
    EqualOrApart(ctx.sources, i, j);
    StepDoes(ctx, w0, s, i);
    if ctx.sources[i] == src {
      if Fetches(ctx, s.world, src) { FetchPersists(ctx, w0, s, src); }
      else {
        ServedAgain(ctx, w0, s, i);
        ServedIsFull(ctx, w0, s, i);
      }
    } else {
      OtherStepIsAlike(ctx, w0, s, i, src);
      PruneSpares(ctx, w0, s);
      PruneSpares(ctx, w0, StepSource(ctx, true, s, ctx.sources[i]));
      DecisionsAlike(ctx, PruneWorld(s), PruneWorld(StepSource(ctx, true, s, ctx.sources[i])), src);
      if src.skills.Wildcard? { FullStays(ctx, s, StepSource(ctx, true, s, ctx.sources[i]), src); }
    }
  }

  lemma FullStays(ctx: Ctx, s: State, s': State, src: SourceSpec)
    requires src.skills.Wildcard? && Full(s, src)
    requires forall k :: Covers(src, k) ==> SameAt(s.world.lock, s'.world.lock, k) && (k in s.desired <==> k in s'.desired)
    ensures Full(s', src)
  {
    forall k | k in s'.world.lock && k.source == src.source ensures k in s'.desired { assert Covers(src, k); }
  }

  lemma {:induction false} RunStaysServed(ctx: Ctx, w: World, i: nat, j: nat)
    requires ctx.Valid() && NamesOnce(ctx, w) && WellKeyed(w.lock) && OneWay(ctx.sources) && j < i <= |ctx.sources|
    requires RunSources(ctx, true, Start(w), i).tally.failed == 0
    requires !Fetches(ctx, RunSources(ctx, true, Start(w), j).world, ctx.sources[j])
    ensures ServedSoFar(ctx, RunSources(ctx, true, Start(w), i), ctx.sources[j])
  {
    hide WellKeyed, StepSource, NamesOnce, SoundInv, SourceFails, OneWay, OneSelector, Landed, AskedBy, Tasks, Fetches, ServedSoFar, NoneShared;
    var s := RunSources(ctx, true, Start(w), i - 1);
    RunKeepsSound(ctx, w, i - 1);
    EqualOrApart(ctx.sources, i - 1, i - 1);
    if SourceFails(ctx, s.world, ctx.sources[i - 1]) { FailureCounts(ctx, s, ctx.sources[i - 1]); }
    StepDoes(ctx, w, s, i - 1);
    if j < i - 1 { RunStaysServed(ctx, w, i - 1, j); }
    StaysServed(ctx, w, s, i - 1, j);
  }

  /** Every entry is idle in the world a failure-free run leaves, and asks for its share of it. */
  ghost predicate Resting(ctx: Ctx, s: State) {
    forall j :: 0 <= j < |ctx.sources| ==>
      Idle(ctx, PruneWorld(s), ctx.sources[j]) && AskedBy(ctx, PruneWorld(s), ctx.sources[j]) == Mine(s, ctx.sources[j])
  }

  lemma RunIsResting(ctx: Ctx, w: World)
    requires ctx.Valid() && NamesOnce(ctx, w) && WellKeyed(w.lock) && OneWay(ctx.sources)
    requires RunSources(ctx, true, Start(w), |ctx.sources|).tally.failed == 0
    ensures Resting(ctx, RunSources(ctx, true, Start(w), |ctx.sources|))
  {
    hide WellKeyed, NamesOnce, OneWay, RunSources, Mine, Idle, Whole, AskedBy, PruneWorld, Covers;
    RunRests(ctx, w, |ctx.sources|);
    assert ctx.sources[..|ctx.sources|] == ctx.sources;
  }

  lemma {:induction false} IdleRun(ctx: Ctx, s: State, i: nat)
    requires ctx.Valid() && Resting(ctx, s) && i <= |ctx.sources|
    ensures var again := RunSources(ctx, true, Start(PruneWorld(s)), i);
      && again.world == PruneWorld(s) && OnlyKept(again.tally)
      && forall j :: 0 <= j < i ==> Mine(s, ctx.sources[j]) <= again.desired
  {
    hide StepSource, PruneWorld, Idle, AskedBy, Mine;
    if i > 0 {
      IdleRun(ctx, s, i - 1);
      IdleStep(ctx, RunSources(ctx, true, Start(PruneWorld(s)), i - 1), ctx.sources[i - 1]);
    }
  }

  lemma EveryShare(ctx: Ctx, s: State, desired: set<Key>)
    requires RestSoFar(ctx, s, |ctx.sources|)
    requires forall j :: 0 <= j < |ctx.sources| ==> Mine(s, ctx.sources[j]) <= desired
    ensures s.desired <= desired
  {
    hide Rests, Covers;
    forall k | k in s.desired ensures k in desired {
      var j :| 0 <= j < |ctx.sources| && Covers(ctx.sources[j], k);
      assert k in Mine(s, ctx.sources[j]);
    }
  }

  /** Sync converges: after a failure-free run, the same run again changes neither the lock nor the disk,
      and installs, updates, removes and fails nothing. */
  lemma SyncConverges(ctx: Ctx, w: World)
    requires ctx.Valid() && NamesOnce(ctx, w) && WellKeyed(w.lock) && OneWay(ctx.sources)
    requires SyncSkills(ctx, true, w).tally.failed == 0
    ensures var w1 := SyncSkills(ctx, true, w).world; var again := SyncSkills(ctx, true, w1);
      again.world == w1 && OnlyKept(again.tally)
  {
    hide WellKeyed, NamesOnce, OneWay, RunSources, Mine, RestSoFar, PruneWorld, Covers, Resting, SoundInv, Stale, AllMatch;
    var n := |ctx.sources|;
    var s := RunSources(ctx, true, Start(w), n);
    RunKeepsSound(ctx, w, n);
    RunRests(ctx, w, n);
    RunIsResting(ctx, w);
    PruneSpares(ctx, w, s);
    IdleRun(ctx, s, n);
    var again := RunSources(ctx, true, Start(PruneWorld(s)), n);
    EveryShare(ctx, s, again.desired);
    PrunesNothing(again);
  }

  /** An entry that was served from the lock at its turn is served from it by the next run again. */
  lemma NoFetchAgain(ctx: Ctx, w: World, j: nat)
    requires ctx.Valid() && NamesOnce(ctx, w) && WellKeyed(w.lock) && OneWay(ctx.sources) && j < |ctx.sources|
    requires SyncSkills(ctx, true, w).tally.failed == 0
    requires !Fetches(ctx, RunSources(ctx, true, Start(w), j).world, ctx.sources[j])
    ensures var w1 := SyncSkills(ctx, true, w).world;
      !Fetches(ctx, w1, ctx.sources[j]) && !SourceFails(ctx, w1, ctx.sources[j])
  {
    hide WellKeyed, NamesOnce, OneWay, RunSources, PruneWorld, Fetches, SourceFails, Stale, AskedBy, Tasks, Mine, Full;
    RunStaysServed(ctx, w, |ctx.sources|, j);
    RunIsResting(ctx, w);
  }
}
