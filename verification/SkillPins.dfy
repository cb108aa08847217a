/** A change of pin that leaves a skill's tree as it was. */
module SkillPins {
  import opened Collections
  import opened SkillSync
  import opened SkillRest
  import opened SkillOutcome

  lemma {:induction false} LockedTasksKeep(ctx: Ctx, apply: bool, s: State, source: Source, tasks: seq<Task>)
    requires ctx.Valid() && TasksServable(s.world.lock, source, tasks)
    requires forall i :: 0 <= i < |tasks| ==> tasks[i].want.latest.None?
    ensures ProcessAll(ctx, apply, s, source, tasks).world.lock == s.world.lock
    decreases |tasks|
  {
    hide CountOne, PathsOf;
    if tasks != [] {
      LockedTasksKeep(ctx, apply, s, source, tasks[..|tasks| - 1]);
      assert s.world.lock[Key(source, tasks[|tasks| - 1].name) := s.world.lock[Key(source, tasks[|tasks| - 1].name)]] == s.world.lock;
    }
  }

  /** Under `--locked` no turn changes the lock. */
  lemma {:induction false} LockedKeepsLock(ctx: Ctx, apply: bool, w: World, i: nat)
    requires ctx.Valid() && ctx.locked && i <= |ctx.sources|
    ensures AtTurn(ctx, apply, w, i).lock == w.lock
  {
    hide Fetches, Satisfiable, ProcessAll, LockTasks, NameSeq, FetchTasks, TasksServable;
    if i > 0 {
      LockedKeepsLock(ctx, apply, w, i - 1);
      var s, src := RunSources(ctx, apply, Start(w), i - 1), ctx.sources[i - 1];
      if !SourceFails(ctx, s.world, src) {
        TasksAreServable(ctx, s.world, src);
        LockTasksAreLocked(s.world.lock, src.source, NameSeq(s.world.lock, src));
        LockedTasksKeep(ctx, apply, s, src.source, Tasks(ctx, s.world, src));
      }
    }
  }

  /** At the turn of entry `i` the skill is locked at another pin, with the very tree the source holds, in every
      destination. */
  ghost predicate PinMovedOnly(ctx: Ctx, w: World, i: nat, k: Key, item: Item)
    requires ctx.Valid() && i < |ctx.sources|
  {
    var before, src := AtTurn(ctx, true, w, i), ctx.sources[i];
    && AsksAbout(before, src, k) && k in before.lock && Retargeted(before, src, k)
    && Holds(src, ctx.fetch(src), k.skill, item)
    && before.lock[k].hash == Sha(item.tree) && Everywhere(ctx, before, k.skill, item.tree)
  }

  /** A skill found outdated, and held by its source, is still outdated after a failure-free run if and only if only
      its pin had moved, or the fetched revision is not the one the config asks for. */
  lemma SettledExactly(ctx: Ctx, w: World, i: nat, k: Key, item: Item)
    requires ctx.Valid() && NamesOnce(ctx, w) && WellKeyed(w.lock) && OneWay(ctx.sources) && i < |ctx.sources|
    requires SyncSkills(ctx, true, w).tally.failed == 0 && Outdated(ctx, AtTurn(ctx, true, w, i), ctx.sources[i], k)
    requires Holds(ctx.sources[i], ctx.fetch(ctx.sources[i]), k.skill, item)
    ensures var before, src, f := AtTurn(ctx, true, w, i), ctx.sources[i], ctx.fetch(ctx.sources[i]);
      Outdated(ctx, SyncSkills(ctx, true, w).world, src, k) <==>
        if k in before.lock && before.lock[k].hash == Sha(item.tree) && Everywhere(ctx, before, k.skill, item.tree)
        then PinMovedOnly(ctx, w, i, k, item)
        else f.revision != src.expected
  {
    hide NamesOnce, WellKeyed, OneWay, SyncSkills, RunSources, Holds, Everywhere, Lost, AtTurn;
    var before, after, src := AtTurn(ctx, true, w, i), SyncSkills(ctx, true, w).world, ctx.sources[i];
    OutdatedIsFetched(ctx, w, i, k);
    assert k == Key(src.source, k.skill);
    assert EntryAsFetched(ctx, before, k, item, ctx.fetch(src).revision, after.lock[k]);
    EverywhereIsKept(ctx, after, k, item.tree);
    if k in before.lock && before.lock[k].hash == Sha(item.tree) && Everywhere(ctx, before, k.skill, item.tree) {
      EverywhereIsKept(ctx, before, k, item.tree);
    }
  }

  lemma EverywhereIsKept(ctx: Ctx, w: World, k: Key, tree: Tree)
    requires ctx.Valid() && k in w.lock && w.lock[k].hash == Sha(tree) && Everywhere(ctx, w, k.skill, tree)
    ensures !Lost(ctx, w, k)
  {
    assert ctx.dests[0] in ctx.dests;
  }

  /** Such a skill keeps its old pin in the lock. So the run that was to bring the new pin in leaves its entry
      outdated, and a `--locked` run after it fails, although nothing is left to do. */
  lemma PinStaysBehind(ctx: Ctx, apply: bool, w: World, i: nat, k: Key, item: Item)
    requires ctx.Valid() && NamesOnce(ctx, w) && WellKeyed(w.lock) && OneWay(ctx.sources) && i < |ctx.sources|
    requires SyncSkills(ctx, true, w).tally.failed == 0 && PinMovedOnly(ctx, w, i, k, item)
    ensures var after := SyncSkills(ctx, true, w).world;
      && Outdated(ctx, after, ctx.sources[i], k)
      && SyncSkills(ctx.(locked := true), apply, after).tally.failed > 0
  {
    hide NamesOnce, WellKeyed, OneWay, SyncSkills, RunSources, Holds, Everywhere, Lost, AtTurn;
    var before, after, src := AtTurn(ctx, true, w, i), SyncSkills(ctx, true, w).world, ctx.sources[i];
    SettledExactly(ctx, w, i, k, item);
    assert k in after.lock && Retargeted(after, src, k) by {
      OutdatedIsFetched(ctx, w, i, k);
      assert k == Key(src.source, k.skill);
      assert EntryAsFetched(ctx, before, k, item, ctx.fetch(src).revision, after.lock[k]);
    }
    AfterIsKeyed(ctx, w);
    var strict := ctx.(locked := true);
    LockedKeepsLock(strict, apply, after, i);
    assert Outdated(strict, AtTurn(strict, apply, after, i), strict.sources[i], k);
    OutdatedFails(strict, apply, after, i, k);
  }
}
