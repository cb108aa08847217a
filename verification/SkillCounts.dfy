/** What a sync's counts and deletions mean, told from lock and disk alone. */
module SkillCounts {
  import opened Collections
  import opened SkillSync
  import opened SkillRest
  import opened SkillAtOnce
  import opened SkillOutcome

  // ------------------------------------------------------------ what is counted

  /** The turn of an entry wants this tree for the skill: the locked one when all it asks about is up to date, else
      what the fetched source holds. */
  ghost predicate Offers(ctx: Ctx, w: World, src: SourceSpec, n: Name, tree: Tree) {
    var k := Key(src.source, n);
    if UpToDate(ctx, w, src) then AsksAbout(w, src, k) && k in w.lock && w.lock[k].hash.of == tree
    else exists item :: Holds(src, ctx.fetch(src), n, item) && item.tree == tree
  }

  ghost predicate InPlace(ctx: Ctx, w: World, k: Key, tree: Tree) {
    k in w.lock && w.lock[k].hash.of == tree && Everywhere(ctx, w, k.skill, tree)
  }

  lemma InPlaceIsUnchanged(ctx: Ctx, w: World, k: Key, tree: Tree)
    ensures InPlace(ctx, w, k, tree) <==> Unchanged(ctx, w, k, tree)
  {
    hide Everywhere, AllMatch;
    EverywhereMatches(ctx, w, k.skill, tree);
    if k in w.lock { assert w.lock[k].hash == Sha(w.lock[k].hash.of); }
  }

  lemma HeldIsSelected(src: SourceSpec, f: Fetched, n: Name, item: Item)
    requires f.Fetched? && TidySource(src)
    ensures Holds(src, f, n, item) <==> n in Selected(src, f) && Selected(src, f)[n] == item
  {
    if src.skills.List? {
      var items := src.skills.items;
      forall s | s in items && s.name == n ensures n in ListNames(items) && SelectorOf(items, n) == s {
        SelectorIs(items, s);
      }
      forall s | s in items && s.name == n ensures HoldsFor(f, s, item) <==> Resolve(f, s) == Some(item) {}
    }
  }

  lemma WantIsOffered(ctx: Ctx, w: World, src: SourceSpec, n: Name, tree: Tree)
    requires WellKeyed(w.lock) && TidySource(src) && !SourceFails(ctx, w, src)
    ensures Offers(ctx, w, src, n, tree) <==> n in Wants(ctx, w, src) && Wants(ctx, w, src)[n].tree == tree
  {
    hide UpToDate, Fetches, AsksAbout, DesiredNames, Selected, Holds, TidySource, Satisfiable, WellKeyed;
    UpToDateIsServed(ctx, w, src);
    var k, f := Key(src.source, n), ctx.fetch(src);
    if Fetches(ctx, w, src) {
      assert f.Fetched?;
      forall item ensures Holds(src, f, n, item) <==> n in Selected(src, f) && Selected(src, f)[n] == item {
        HeldIsSelected(src, f, n, item);
      }
    } else {
      if AsksAbout(w, src, k) { AskedIsDesired(w, src, k); }
      if n in DesiredNames(w.lock, src) { DesiredIsAsked(w, src, n); }
    }
  }

  ghost predicate IsNew(ctx: Ctx, w: World, src: SourceSpec, n: Name) {
    exists t :: Offers(ctx, w, src, n, t) && Key(src.source, n) !in w.lock
  }

  ghost predicate Differs(ctx: Ctx, w: World, src: SourceSpec, n: Name) {
    exists t :: Offers(ctx, w, src, n, t) && Key(src.source, n) in w.lock && !InPlace(ctx, w, Key(src.source, n), t)
  }

  ghost predicate IsSame(ctx: Ctx, w: World, src: SourceSpec, n: Name) {
    exists t :: Offers(ctx, w, src, n, t) && InPlace(ctx, w, Key(src.source, n), t)
  }

  /** What one turn adds to the counts, when its list names no skill twice: of the skills it wants, the ones that are
      not locked count as installed, the ones whose lock entry or some destination differs as updated, and the rest
      as unchanged. A preview counts the same. */
  lemma TurnCounts(ctx: Ctx, apply: bool, s: State, src: SourceSpec, added: set<Name>, changed: set<Name>, same: set<Name>)
    requires ctx.Valid() && WellKeyed(s.world.lock) && TidySource(src)
    requires UpToDate(ctx, s.world, src) || (!ctx.locked && ctx.fetch(src).Fetched? && src.skills != Wildcard(false))
    requires forall n :: n in added <==> IsNew(ctx, s.world, src, n)
    requires forall n :: n in changed <==> Differs(ctx, s.world, src, n)
    requires forall n :: n in same <==> IsSame(ctx, s.world, src, n)
    ensures var t, t' := s.tally, StepSource(ctx, apply, s, src).tally;
      && t'.installed == t.installed + |added| && t'.updated == t.updated + |changed| && t'.kept == t.kept + |same|
      && t'.removed == t.removed && t'.failed == t.failed
  {
    hide UpToDate, Offers, SourceFails, WellKeyed, TidySource, StepSource, Wants, Unchanged, InPlace, Broken, Fetches, ApplyWants;
    UpToDateIsServed(ctx, s.world, src);
    FailsOnlyToFetch(ctx, s.world, src);
    StepIsAtOnce(ctx, apply, s, src);
    var w, want := s.world, Wants(ctx, s.world, src);
    forall n, t ensures Offers(ctx, w, src, n, t) <==> n in want && want[n].tree == t { WantIsOffered(ctx, w, src, n, t); }
    forall k, t ensures InPlace(ctx, w, k, t) <==> Unchanged(ctx, w, k, t) { InPlaceIsUnchanged(ctx, w, k, t); }
    UnchangedIsLocked(ctx, w);
    assert forall n :: n in want ==> Offers(ctx, w, src, n, want[n].tree);
    assert added == InstalledNames(w, src.source, want);
    assert changed == UpdatedNames(ctx, w, src.source, want);
    assert same == UnchangedNames(ctx, w, src.source, want);
  }

  lemma UnchangedIsLocked(ctx: Ctx, w: World)
    ensures forall k, t :: Unchanged(ctx, w, k, t) ==> k in w.lock
  {
  }

  // ------------------------------------------------------------ what is deleted

  /** Nothing is taken away before the prune, and what was not asked for keeps its entry. */
  ghost predicate OnlyGrown(w: World, s: State) {
    && (forall p :: p in w.disk ==> p in s.world.disk)
    && (forall k :: k in w.lock ==> k in s.world.lock)
    && (forall k :: k !in s.desired ==> (k in s.world.lock <==> k in w.lock))
    && (forall k :: k in w.lock && k !in s.desired ==> s.world.lock[k] == w.lock[k])
  }

  lemma {:induction false} TasksGrow(ctx: Ctx, apply: bool, w: World, s: State, source: Source, tasks: seq<Task>)
    requires ctx.Valid() && TasksServable(s.world.lock, source, tasks) && OnlyGrown(w, s)
    ensures OnlyGrown(w, ProcessAll(ctx, apply, s, source, tasks))
    decreases |tasks|
  {
    hide EntryAfter, CountOne;
    if tasks != [] { TasksGrow(ctx, apply, w, s, source, tasks[..|tasks| - 1]); }
  }

  lemma {:induction false} RunOnlyGrows(ctx: Ctx, apply: bool, w: World, i: nat)
    requires ctx.Valid() && i <= |ctx.sources|
    ensures OnlyGrown(w, RunSources(ctx, apply, Start(w), i))
  {
    hide SourceFails, Tasks, ProcessAll, Fetches, Broken, TasksServable;
    if i > 0 {
      RunOnlyGrows(ctx, apply, w, i - 1);
      var s, src := RunSources(ctx, apply, Start(w), i - 1), ctx.sources[i - 1];
      if !SourceFails(ctx, s.world, src) {
        TasksAreServable(ctx, s.world, src);
        TasksGrow(ctx, apply, w, WithBroken(ctx, s.world, s, src), src.source, Tasks(ctx, s.world, src));
      }
    }
  }

  /** An entry that a run drops takes its recorded directory with it, and no other directory goes. With a failure
      nothing goes at all. */
  lemma DroppedIsGone(ctx: Ctx, w: World)
    requires ctx.Valid()
    ensures var r := SyncSkills(ctx, true, w);
      && (forall k :: k in w.lock && k !in r.world.lock ==> w.lock[k].destination !in r.world.disk)
      && (forall p :: p in w.disk && p !in r.world.disk ==>
           exists k :: k in w.lock && k !in r.world.lock && w.lock[k].destination == p)
      && (r.tally.failed > 0 ==> w.lock.Keys <= r.world.lock.Keys && w.disk.Keys <= r.world.disk.Keys)
  {
    hide RunSources;
    RunOnlyGrows(ctx, true, w, |ctx.sources|);
    var s := RunSources(ctx, true, Start(w), |ctx.sources|);
    if s.tally.failed == 0 {
      forall p | p in w.disk && p !in PruneWorld(s).disk
        ensures exists k :: k in w.lock && k !in PruneWorld(s).lock && w.lock[k].destination == p
      {
        var k :| k in Stale(s) && s.world.lock[k].destination == p;
        assert k in w.lock;
      }
    }
  }
}
