/** The sync driver itself: it works through the sources one by one, remembers directory hashes in a cache, and
    repairs directories by copying, where any copy may fail half-way. It refines `SkillSync`. */
module SkillDriver {
  import opened Collections
  import opened SkillSync
  import opened SkillAtOnce
  import opened SkillRest
  import SkillOutcome

  /** The outcome of one directory copy; a failed one leaves whatever it got done. */
  datatype CopyOutcome = Copied | CopyBroke(left: Option<Tree>)

  datatype SyncError =
    | Unsatisfiable | FetchForbidden | FetchError | InvalidField
    | CopyError(skill: Name) | NoGoodCopy(skill: Name)

  ghost function HashAt(disk: Disk, p: Path): Option<Hash> {
    if p in disk then Some(Sha(disk[p])) else None
  }

  // ---------------------------------------------------------- the hash cache

  /** The cache never claims a hash the directory does not have. */
  ghost predicate CacheSound(cache: map<Path, Option<Hash>>, disk: Disk) {
    forall p :: p in cache && cache[p].Some? ==> HashAt(disk, p) == cache[p]
  }

  /** Without a broken copy it is also right about missing directories. */
  ghost predicate CacheExact(cache: map<Path, Option<Hash>>, disk: Disk) {
    forall p :: p in cache ==> HashAt(disk, p) == cache[p]
  }

  ghost predicate Extends(before: map<Path, Option<Hash>>, after: map<Path, Option<Hash>>) {
    forall p :: p in before ==> p in after && after[p] == before[p]
  }

  /** Some destination is known, from the cache alone, to hold the locked tree. */
  ghost predicate KnownGood(ctx: Ctx, cache: map<Path, Option<Hash>>, n: Name, h: Hash) {
    exists d :: d in ctx.dests && Path(d, n) in cache && cache[Path(d, n)] == Some(h)
  }

  /** The lock can serve this skill without a fetch, and the cache knows a copy to repair from. */
  ghost predicate Repairable(ctx: Ctx, lock: Lock, cache: map<Path, Option<Hash>>, source: Source, n: Name) {
    Key(source, n) in lock && KnownGood(ctx, cache, n, lock[Key(source, n)].hash)
  }

  // ------------------------------------------------ runs that have nothing to copy

  /** Everything this source asks for is already in place. */
  ghost predicate Calm(ctx: Ctx, w: World, src: SourceSpec) {
    !SourceFails(ctx, w, src) && AllInPlace(ctx, w, src.source, Tasks(ctx, w, src))
  }

  ghost predicate AllInPlace(ctx: Ctx, w: World, source: Source, tasks: seq<Task>) {
    forall t :: t in tasks ==> Unchanged(ctx, w, Key(source, t.name), t.want.tree)
  }

  ghost predicate CalmFetch(ctx: Ctx, w: World, src: SourceSpec) {
    ctx.fetch(src).Fetched? && AllInPlace(ctx, w, src.source, FetchTasks(src, ctx.fetch(src)))
  }

  ghost predicate AllServed(ctx: Ctx, w: World, source: Source, names: seq<Name>) {
    forall n :: n in names && Key(source, n) in w.lock ==> AllMatch(ctx, w.disk, n, w.lock[Key(source, n)].hash)
  }

  lemma ServedThere(ctx: Ctx, w: World, source: Source, names: seq<Name>, n: Name)
    requires AllServed(ctx, w, source, names) && n in names && Key(source, n) in w.lock
    ensures AllMatch(ctx, w.disk, n, w.lock[Key(source, n)].hash)
  {
  }

  /** Every source of the run finds its skills in place. */
  ghost predicate CalmRun(ctx: Ctx, apply: bool, w: World) {
    ctx.Valid() && forall i :: 0 <= i < |ctx.sources| ==> Calm(ctx, RunSources(ctx, apply, Start(w), i).world, ctx.sources[i])
  }

  /** The same hash under every key of `before`. */
  ghost predicate SameHashes(before: Lock, after: Lock) {
    forall k :: k in before ==> k in after && after[k].hash == before[k].hash
  }

  lemma StillInPlace(ctx: Ctx, w: World, w': World, source: Source, tasks: seq<Task>, t: Task)
    requires AllInPlace(ctx, w, source, tasks) && t in tasks && w'.disk == w.disk && SameHashes(w.lock, w'.lock)
    ensures Unchanged(ctx, w', Key(source, t.name), t.want.tree)
  {
    hide AllMatch;
    assert Unchanged(ctx, w, Key(source, t.name), t.want.tree);
  }

  lemma CalmFetches(ctx: Ctx, w: World, src: SourceSpec)
    requires Fetches(ctx, w, src)
    ensures Calm(ctx, w, src) ==> CalmFetch(ctx, w, src)
  {
    hide Fetches, AllInPlace, FetchTasks;
  }

  lemma {:induction false} LockTaskOf(lock: Lock, source: Source, names: seq<Name>, n: Name)
    requires n in names && Key(source, n) in lock
    ensures Task(n, Wanted(lock[Key(source, n)].hash.of, None)) in LockTasks(lock, source, names)
  {
    var m := |names| - 1;
    if n != names[m] {
      var i :| 0 <= i < |names| && names[i] == n;
      assert names[..m][i] == n;
      LockTaskOf(lock, source, names[..m], n);
    }
  }

  lemma CalmServes(ctx: Ctx, w: World, src: SourceSpec, names: seq<Name>)
    requires !Fetches(ctx, w, src) && ToSet(names) == DesiredNames(w.lock, src)
    ensures Calm(ctx, w, src) ==> AllServed(ctx, w, src.source, names)
  {
    hide Fetches, DesiredNames, AllMatch, LockTasks, NameSeq;
    if Calm(ctx, w, src) {
      NameSeqHas(w.lock, src);
      forall n | n in names && Key(src.source, n) in w.lock ensures AllMatch(ctx, w.disk, n, w.lock[Key(src.source, n)].hash) {
        assert n in ToSet(names);
        LockTaskOf(w.lock, src.source, NameSeq(w.lock, src), n);
        assert Task(n, Wanted(w.lock[Key(src.source, n)].hash.of, None)) in Tasks(ctx, w, src);
      }
    }
  }

  lemma NameSeqHas(lock: Lock, src: SourceSpec)
    ensures forall n :: n in NameSeq(lock, src) <==> n in DesiredNames(lock, src)
  {
    if src.skills.List? {
      ItemNamesAre(src.skills.items);
      assert forall n :: n in ItemNames(src.skills.items) <==> n in ToSet(ItemNames(src.skills.items));
    } else {
      ListedIsIn(DesiredNames(lock, src));
    }
  }

  ghost predicate AllRepairable(ctx: Ctx, lock: Lock, cache: map<Path, Option<Hash>>, source: Source, names: seq<Name>) {
    forall n :: n in names ==> Repairable(ctx, lock, cache, source, n)
  }

  ghost predicate AllLocked(lock: Lock, source: Source, names: seq<Name>) {
    forall n :: n in names ==> Key(source, n) in lock
  }

  lemma RepairableAreLocked(ctx: Ctx, lock: Lock, cache: map<Path, Option<Hash>>, source: Source, names: seq<Name>)
    requires AllRepairable(ctx, lock, cache, source, names)
    ensures AllLocked(lock, source, names)
  {
    hide KnownGood;
  }

  lemma RepairableAt(ctx: Ctx, lock: Lock, cache: map<Path, Option<Hash>>, source: Source, names: seq<Name>, n: Name)
    requires AllRepairable(ctx, lock, cache, source, names) && n in names
    ensures Key(source, n) in lock && KnownGood(ctx, cache, n, lock[Key(source, n)].hash)
  {
    hide KnownGood;
  }

  /** Repairing one skill leaves every name of the source repairable. */
  lemma RepairableStays(ctx: Ctx, lock: Lock, before: map<Path, Option<Hash>>, after: map<Path, Option<Hash>>, source: Source,
                        names: seq<Name>, n: Name)
    requires AllRepairable(ctx, lock, before, source, names) && Key(source, n) in lock
    requires forall m, h :: KnownGood(ctx, before, m, h) && (m == n ==> h == lock[Key(source, n)].hash) ==> KnownGood(ctx, after, m, h)
    ensures AllRepairable(ctx, lock, after, source, names)
  {
    hide KnownGood;
  }

  class Driver {
    const ctx: Ctx
    const apply: bool
    const copies: nat -> CopyOutcome     // what the k-th directory copy of this run does
    var lock: Lock
    var disk: Disk
    var cache: map<Path, Option<Hash>>
    var tally: Tally
    var desired: set<Key>
    var ticks: nat
    var errors: seq<SyncError>
    ghost var clean: bool                // no copy has failed so far
    ghost var skipped: nat               // desired skills passed over for want of a lock entry

    constructor (ctx: Ctx, apply: bool, copies: nat -> CopyOutcome, lock: Lock, disk: Disk)
      requires ctx.Valid()
      ensures Valid() && clean && skipped == 0 && errors == [] && ctx.Valid()
      ensures this.ctx == ctx && this.apply == apply && this.lock == lock && this.disk == disk
      ensures tally == ZERO && desired == {} && cache == map[]
    {
      this.ctx, this.apply, this.copies, this.lock, this.disk := ctx, apply, copies, lock, disk;
      cache, tally, desired, ticks, errors := map[], ZERO, {}, 0, [];
      clean, skipped := true, 0;
    }

    ghost predicate Valid()
      reads this
    {
      ctx.Valid() && CacheSound(cache, disk) && (clean ==> CacheExact(cache, disk))
    }

    ghost function Now(): State
      reads this
    {
      State(World(lock, disk), tally, desired)
    }

    method CacheGet(p: Path) returns (h: Option<Hash>)
      requires Valid()
      modifies this`cache
      ensures Valid() && Extends(old(cache), cache) && p in cache && cache[p] == h
    {
      if p !in cache {
        cache := cache[p := if p in disk then Some(Sha(disk[p])) else None];
      }
      h := cache[p];
    }

    /** Compares every destination of one skill with the expected hash; `good` is the first that has it. */
    method DestStatus(n: Name, expected: Hash) returns (allMatch: bool, good: Option<Dest>)
      requires Valid()
      modifies this`cache
      ensures Valid() && Extends(old(cache), cache)
      ensures good.Some? ==> good.value in ctx.dests && Path(good.value, n) in cache && cache[Path(good.value, n)] == Some(expected)
      ensures good.None? ==> !KnownGood(ctx, cache, n, expected)
      ensures allMatch ==> good.Some? && AllMatch(ctx, disk, n, expected)
      ensures clean ==> (allMatch <==> AllMatch(ctx, disk, n, expected)) && (good.Some? <==> SomeGood(ctx, disk, n, expected))
    {
      var ds := ctx.dests;
      allMatch, good := true, None;
      for i := 0 to |ds|
        invariant Valid() && Extends(old(cache), cache)
        invariant forall j :: 0 <= j < i ==> Path(ds[j], n) in cache
        invariant good.Some? ==> good.value in ds && Path(good.value, n) in cache && cache[Path(good.value, n)] == Some(expected)
        invariant good.None? ==> forall j :: 0 <= j < i ==> cache[Path(ds[j], n)] != Some(expected)
        invariant allMatch <==> forall j :: 0 <= j < i ==> cache[Path(ds[j], n)] == Some(expected)
      {
        ghost var cache0 := cache;
        var h := CacheGet(Path(ds[i], n));
        assert forall j :: 0 <= j < i ==> cache[Path(ds[j], n)] == cache0[Path(ds[j], n)];
        if h == Some(expected) {
          if good.None? {
            good := Some(ds[i]);
          }
        } else {
          allMatch := false;
        }
      }
      StatusMeaning(ctx, cache, disk, n, expected, allMatch, good, clean);
    }

    /** Invalidate, copy, and only then record the new hash. */
    method CopyTo(tree: Tree, p: Path) returns (ok: bool)
      requires Valid()
      modifies this`cache, this`disk, this`ticks, this`clean
      ensures Valid()
      ensures forall q: Path :: q != p ==> SameAt(old(disk), disk, q) && SameAt(old(cache), cache, q)
      ensures ok ==> clean == old(clean) && p in disk && disk[p] == tree && p in cache && cache[p] == Some(Sha(tree))
      ensures !ok ==> !clean
    {
      cache := cache[p := None];
      var outcome := copies(ticks);
      ticks := ticks + 1;
      match outcome {
        case CopyBroke(left) =>
          disk := if left.Some? then disk[p := left.value] else disk - {p};
          clean := false;
          ok := false;
        case Copied =>
          disk := disk[p := tree];
          cache := cache[p := Some(Sha(tree))];
          ok := true;
      }
    }

    /** Copies a tree to every destination but `spared`, stopping at the first failure. */
    method CopyAll(n: Name, tree: Tree, spared: Option<Dest>) returns (ok: bool)
      requires Valid()
      requires spared.Some? ==> Matches(disk, spared.value, n, Sha(tree))
      modifies this`cache, this`disk, this`ticks, this`clean
      ensures Valid()
      ensures SameOff(old(disk), disk, n, ctx.dests, None) && SameOff(old(cache), cache, n, ctx.dests, spared)
      ensures ok ==> clean == old(clean) && forall d :: d in ctx.dests ==> Matches(disk, d, n, Sha(tree))
      ensures !ok ==> !clean
    {
      var ds := ctx.dests;
      assert ds[..|ds|] == ds;
      for i := 0 to |ds|
        invariant Valid() && clean == old(clean)
        invariant SameOff(old(disk), disk, n, ds[..i], spared) && SameOff(old(cache), cache, n, ds[..i], spared)
        invariant forall j :: 0 <= j < i ==> Matches(disk, ds[j], n, Sha(tree))
        invariant spared.Some? ==> Matches(disk, spared.value, n, Sha(tree))
      {
        ghost var disk0, cache0 := disk, cache;
        if spared != Some(ds[i]) {
          ok := CopyTo(tree, Path(ds[i], n));
          SameOffNext(old(disk), disk0, disk, n, ds, i, spared);
          SameOffNext(old(cache), cache0, cache, n, ds, i, spared);
          if !ok {
            return;
          }
          forall d | d == ds[i] || Matches(disk0, d, n, Sha(tree)) ensures Matches(disk, d, n, Sha(tree)) {
            if d != ds[i] { assert SameAt(disk0, disk, Path(d, n)); }
          }
        } else {
          SameOffNext(old(disk), disk0, disk, n, ds, i, spared);
          SameOffNext(old(cache), cache0, cache, n, ds, i, spared);
        }
      }
      ok := true;
    }

    /** A fetched skill: unchanged, previewed, or copied everywhere and then recorded. */
    method ProcessSingle(source: Source, revision: Label, n: Name, item: Item) returns (ok: bool)
      requires Valid()
      modifies this`lock, this`disk, this`cache, this`tally, this`desired, this`ticks, this`clean
      ensures Valid()
      ensures tally.failed == old(tally.failed) && old(lock).Keys <= lock.Keys
      ensures if ok then clean == old(clean) else !clean
      ensures !apply ==> lock == old(lock) && disk == old(disk) && clean == old(clean)
      ensures old(clean && Unchanged(ctx, World(lock, disk), Key(source, n), item.tree)) ==>
        clean && disk == old(disk) && SameHashes(old(lock), lock)
      ensures clean ==> old(clean) && Now() == ProcessedOne(ctx, apply, old(Now()), Key(source, n), Wanted(item.tree, Some((item.description, revision))))
    {
      hide AllMatch, SomeGood, CacheExact, CacheSound, KnownGood, Extends;
      var key := Key(source, n);
      ghost var before := Now();
      ghost var want := Wanted(item.tree, Some((item.description, revision)));
      desired := desired + {key};
      var hash := Sha(item.tree);
      var isUnchanged := false;
      if key in lock && lock[key].hash == hash {
        var good;
        isUnchanged, good := DestStatus(n, lock[key].hash);
      }
      if isUnchanged {
        AlreadyWritten(ctx, disk, n, item.tree);
        if apply {
          lock := lock[key := lock[key].(description := item.description)];
        }
        tally := tally.(kept := tally.kept + 1);
        return true;
      }
      if !apply {
        if key in lock {
          tally := tally.(updated := tally.updated + 1);
        } else {
          tally := tally.(installed := tally.installed + 1);
        }
        return true;
      }
      ghost var disk0 := disk;
      ok := CopyAll(n, item.tree, None);
      if !ok {
        return;
      }
      DiskWritten(ctx, disk0, disk, n, item.tree);
      if key in lock {
        tally := tally.(updated := tally.updated + 1);
      } else {
        tally := tally.(installed := tally.installed + 1);
      }
      lock := lock[key := Entry(Path(ctx.dests[0], n), hash, n, item.description, source, Some(revision))];
    }

    /** A skill served from the lock: unchanged, previewed, or repaired from a good local copy. */
    method ProcessLocked(source: Source, entry: Entry, n: Name) returns (e: Option<SyncError>)
      requires Valid() && Key(source, n) in lock && lock[Key(source, n)] == entry
      modifies this`disk, this`cache, this`tally, this`ticks, this`clean
      ensures Valid()
      ensures tally.failed == old(tally.failed)
      ensures e == None || e == Some(CopyError(n)) || e == Some(NoGoodCopy(n))
      ensures e == Some(CopyError(n)) ==> !clean
      ensures old(clean && AllMatch(ctx, disk, n, entry.hash)) ==> clean && disk == old(disk)
      ensures !apply ==> disk == old(disk) && clean == old(clean)
      ensures old(clean) && !clean ==> e == Some(CopyError(n))
      ensures e == Some(NoGoodCopy(n)) ==> !KnownGood(ctx, old(cache), n, entry.hash)
      ensures forall m, h :: KnownGood(ctx, old(cache), m, h) && (m == n ==> h == entry.hash) ==> KnownGood(ctx, cache, m, h)
      ensures clean ==> old(clean)
      ensures clean && e == None ==>
        State(World(lock, disk), tally, {}) == ProcessedOne(ctx, apply, State(World(lock, old(disk)), old(tally), {}), Key(source, n), Wanted(entry.hash.of, None)).(desired := {})
    {
      hide AllMatch, SomeGood, CacheExact, CacheSound, KnownGood, Extends, SameOff;
      ghost var cache0 := cache;
      var allMatch, good := DestStatus(n, entry.hash);
      ghost var cache1, disk1 := cache, disk;
      KnownGoodExtends(ctx, cache0, cache);
      if allMatch {
        AlreadyWritten(ctx, disk, n, entry.hash.of);
        tally := tally.(kept := tally.kept + 1);
        return None;
      }
      if !apply {
        tally := tally.(updated := tally.updated + 1);
        return None;
      }
      if good.None? {
        return Some(NoGoodCopy(n));
      }
      GoodIsThere(cache, disk, good.value, n, entry.hash);
      var ok := CopyAll(n, disk[Path(good.value, n)], good);
      KnownGoodSurvives(ctx, cache1, cache, n, good.value, entry.hash);
      if !ok {
        return Some(CopyError(n));
      }
      DiskWritten(ctx, disk1, disk, n, entry.hash.of);
      tally := tally.(updated := tally.updated + 1);
      return None;
    }

    /** The names the source is asked for, before any fetch. */
    method NamesToServe(src: SourceSpec) returns (names: seq<Name>)
      ensures ToSet(names) == DesiredNames(lock, src)
      ensures src.skills.List? ==> names == ItemNames(src.skills.items)
      ensures src.skills.Wildcard? && WellKeyed(lock) ==> NoDup(names)
    {
      names := [];
      match src.skills {
        case List(items) =>
          for i := 0 to |items|
            invariant |names| == i && forall j :: 0 <= j < i ==> names[j] == items[j].name
          {
            names := names + [items[i].name];
          }
          assert names == ItemNames(items);
          ItemNamesAre(items);
        case Wildcard(_) =>
          var todo := lock.Keys;
          while todo != {}
            invariant todo <= lock.Keys
            invariant forall n :: n in names <==> exists k :: k in lock.Keys - todo && lock[k].source == src.source && lock[k].skill == n
            invariant WellKeyed(lock) ==> NoDup(names)
          {
            var k :| k in todo;
            if lock[k].source == src.source {
              assert WellKeyed(lock) ==> lock[k].skill !in names;
              names := names + [lock[k].skill];
            }
            todo := todo - {k};
          }
      }
    }

    /** Can the lock serve every name, or must the source be fetched? */
    method NeedsFetch(src: SourceSpec, names: seq<Name>) returns (need: bool)
      requires Valid() && ToSet(names) == DesiredNames(lock, src)
      modifies this`cache
      ensures Valid()
      ensures !need ==> forall n :: n in names ==> Repairable(ctx, lock, cache, src.source, n)
      ensures clean ==> (need <==> SkillSync.NeedsFetch(ctx, World(lock, disk), src))
    {
      hide AllMatch, SomeGood, CacheExact, CacheSound, KnownGood, Extends, DesiredNames;
      if src.skills.Wildcard? {
        var some := exists k | k in lock :: lock[k].source == src.source;
        if !some {
          return true;
        }
      }
      for i := 0 to |names|
        invariant Valid()
        invariant forall j :: 0 <= j < i ==> Repairable(ctx, lock, cache, src.source, names[j])
        invariant clean ==> forall j :: 0 <= j < i ==> !Unservable(ctx, World(lock, disk), src, names[j])
      {
        var n := names[i];
        assert n in DesiredNames(lock, src) by { assert n in names; }
        var key := Key(src.source, n);
        if key !in lock {
          return true;
        }
        var entry := lock[key];
        if entry.revision.Some? && entry.revision.value != src.expected {
          return true;
        }
        ghost var cache0 := cache;
        var allMatch, good := DestStatus(n, entry.hash);
        KnownGoodExtends(ctx, cache0, cache);
        if !allMatch && good.None? {
          return true;
        }
        GoodIsKnown(ctx, cache, n, entry.hash, good);
      }
      forall n | n in DesiredNames(lock, src) ensures n in names {
        assert n in ToSet(names);
      }
      return false;
    }

    /** Serves a source from the lock, without fetching. */
    method SyncFromLock(src: SourceSpec, names: seq<Name>)
      requires Valid() && (!clean ==> tally.failed > 0) && NoGoodFree(errors)
      modifies this`disk, this`cache, this`tally, this`desired, this`ticks, this`clean, this`errors, this`skipped
      ensures Valid() && (!clean ==> tally.failed > 0) && tally.failed >= old(tally.failed)
      ensures clean ==> old(clean)
      ensures !apply ==> disk == old(disk) && clean == old(clean)
      ensures AllRepairable(ctx, lock, old(cache), src.source, names) ==>
        skipped == old(skipped) && NoGoodFree(errors)
      ensures old(clean && AllServed(ctx, World(lock, disk), src.source, names)) ==> clean
      ensures AllRepairable(ctx, lock, old(cache), src.source, names) && clean ==>
        ServedAll(ctx, apply, old(Now()), src.source, names, Now())
    {
      hide CacheExact, CacheSound, KnownGood, ApplyOne, CountOne, EntryAfter, ProcessedOne, NoGoodFree,
        AllMatch, AllServed, AllRepairable, ServedAll;
      ghost var s0, cache0 := Now(), cache;
      ghost var quiet := clean && AllServed(ctx, World(lock, disk), src.source, names);
      ghost var serves := AllRepairable(ctx, lock, cache, src.source, names);
      ServedNone(ctx, apply, s0, src.source);
      if serves { RepairableAreLocked(ctx, lock, cache, src.source, names); }
      assert names[..0] == [];
      for i := 0 to |names|
        invariant Valid() && (!clean ==> tally.failed > 0) && tally.failed >= old(tally.failed)
        invariant clean ==> old(clean)
        invariant !apply ==> disk == old(disk) && clean == old(clean)
        invariant serves ==> skipped == old(skipped) && NoGoodFree(errors)
        invariant serves ==> AllRepairable(ctx, lock, cache, src.source, names) && AllLocked(lock, src.source, names)
        invariant quiet ==> clean && disk == old(disk)
        invariant lock == s0.world.lock
        invariant serves && clean ==> ServedAll(ctx, apply, s0, src.source, names[..i], Now())
      {
        var n := names[i];
        var key := Key(src.source, n);
        ghost var s1, errors1 := Now(), errors;
        desired := desired + {key};
        TakeOneMore(names, i);
        assert n in names;
        if serves { RepairableAt(ctx, lock, cache, src.source, names, n); }
        ghost var cache1 := cache;
        if key in lock {
          if quiet { ServedThere(ctx, World(lock, disk), src.source, names, n); }
          var e := ProcessLocked(src.source, lock[key], n);
          if serves { RepairableStays(ctx, lock, cache1, cache, src.source, names, n); }
          if e.Some? {
            tally := tally.(failed := tally.failed + 1);
            errors := errors + [e.value];
            if serves { StillNoGoodFree(errors1, e.value); }
          }
          if serves && clean {
            ServeNext(ctx, apply, s0, s1, src.source, names, i, Now());
          }
        } else {
          skipped := skipped + 1;
        }
      }
      assert names[..|names|] == names;
    }

    /** `select_targets`: the skills to install, with their trees, and how many references are broken. */
    method SelectTargets(src: SourceSpec, f: Fetched) returns (ok: bool, targets: seq<(Name, Item)>, broken: nat)
      requires f.Fetched?
      ensures ok <==> src.skills != Wildcard(false)
      ensures ok ==> broken == Broken(src, f) && Selects(src, f, Planned(targets, f))
    {
      hide Selects;
      ok, targets, broken := true, [], 0;
      match src.skills {
        case Wildcard(star) =>
          if !star {
            return false, [], 0;
          }
          var todo := f.available.Keys;
          while todo != {}
            invariant todo <= f.available.Keys
            invariant forall i, j :: 0 <= i < j < |targets| ==> targets[i].0 != targets[j].0
            invariant forall n :: n in f.available.Keys - todo <==> exists i :: 0 <= i < |targets| && targets[i].0 == n
            invariant forall i :: 0 <= i < |targets| ==> targets[i].0 in f.available && targets[i].1 == f.available[targets[i].0]
          {
            var n :| n in todo;
            ghost var before, left := targets, todo;
            targets, todo := targets + [(n, f.available[n])], todo - {n};
            assert todo + {n} == left;
            OneMoreTarget(f.available.Keys, todo, before, n, targets);
          }
          assert f.available.Keys - todo == f.available.Keys;
          WildcardSelects(src, f, targets);
        case List(selectors) =>
          for i := 0 to |selectors|
            invariant broken == BrokenCount(selectors[..i], f)
            invariant Planned(targets, f) == ListTasks(selectors[..i], f)
          {
            assert selectors[..i + 1][..i] == selectors[..i];
            match Resolve(f, selectors[i]) {
              case Some(item) =>
                PlannedNext(targets, (selectors[i].name, item), f);
                targets := targets + [(selectors[i].name, item)];
              case None => broken := broken + 1;
            }
          }
          assert selectors[..|selectors|] == selectors;
          ListSelects(src, f, targets);
      }
    }

    /** Fetches a source and processes every skill it provides. */
    method SyncViaFetch(src: SourceSpec)
      requires Valid() && (!clean ==> tally.failed > 0) && NoGoodFree(errors)
      modifies this`lock, this`disk, this`cache, this`tally, this`desired, this`ticks, this`clean, this`errors
      ensures Valid() && (!clean ==> tally.failed > 0) && NoGoodFree(errors)
      ensures tally.failed >= old(tally.failed) && old(lock).Keys <= lock.Keys
      ensures clean ==> old(clean)
      ensures !apply ==> lock == old(lock) && disk == old(disk) && clean == old(clean)
      ensures old(clean && CalmFetch(ctx, World(lock, disk), src)) ==> clean
      ensures clean && (ctx.fetch(src).FetchFailed? || src.skills == Wildcard(false)) ==>
        Now() == old(Now()).(tally := old(tally).(failed := old(tally.failed) + 1))
      ensures clean && ctx.fetch(src).Fetched? && src.skills != Wildcard(false) ==>
        FetchedAll(ctx, apply, old(Now()), src, Now())
    {
      hide CacheExact, CacheSound, ApplyOne, CountOne, EntryAfter, ProcessedOne, NoGoodFree, Selects, Broken, FetchTasks,
        Processed, AllInPlace;
      ghost var start := Now();
      var f := ctx.fetch(src);
      if f.FetchFailed? {
        StillNoGoodFree(errors, FetchError);
        tally := tally.(failed := tally.failed + 1);
        errors := errors + [FetchError];
        return;
      }
      var ok, targets, broken := SelectTargets(src, f);
      if !ok {
        StillNoGoodFree(errors, InvalidField);
        tally := tally.(failed := tally.failed + 1);
        errors := errors + [InvalidField];
        return;
      }
      tally := tally.(broken := tally.broken + broken);
      ghost var s0, tasks := Now(), Planned(targets, f);
      ghost var quiet := clean && CalmFetch(ctx, World(lock, disk), src);
      if quiet { SelectedInPlace(ctx, World(lock, disk), src, tasks); }
      ProcessedNone(ctx, apply, s0, src.source);
      assert tasks[..0] == [];
      for i := 0 to |targets|
        invariant Valid() && (!clean ==> tally.failed > 0) && NoGoodFree(errors)
        invariant tally.failed >= old(tally.failed) && old(lock).Keys <= lock.Keys
        invariant clean ==> old(clean)
        invariant !apply ==> lock == old(lock) && disk == old(disk) && clean == old(clean)
        invariant quiet ==> clean && disk == old(disk) && SameHashes(old(lock), lock)
        invariant clean ==> Processed(ctx, apply, s0, src.source, tasks[..i], Now())
      {
        ghost var s1, errors1 := Now(), errors;
        if quiet { StillInPlace(ctx, old(World(lock, disk)), World(lock, disk), src.source, tasks, tasks[i]); }
        var processed := ProcessSingle(src.source, f.revision, targets[i].0, targets[i].1);
        if !processed {
          tally := tally.(failed := tally.failed + 1);
          errors := errors + [CopyError(targets[i].0)];
          StillNoGoodFree(errors1, CopyError(targets[i].0));
        }
        if clean { ProcessedNext(ctx, apply, s0, s1, src.source, tasks, i, Now()); }
      }
      if clean {
        assert tasks[..|targets|] == tasks;
        FetchDone(ctx, apply, start, s0, src, tasks, Now());
      }
    }

    method IsSatisfiable(src: SourceSpec, names: seq<Name>) returns (ok: bool)
      requires ToSet(names) == DesiredNames(lock, src)
      ensures ok <==> Satisfiable(lock, src)
    {
      match src.skills {
        case List(_) =>
          ok := forall n | n in names :: Key(src.source, n) in lock;
          assert forall n :: n in names <==> n in ToSet(names);
        case Wildcard(_) =>
          ok := exists k | k in lock :: lock[k].source == src.source;
      }
    }

    method IsUpdateActive(names: seq<Name>) returns (active: bool)
      ensures active <==> UpdateActive(ctx, ToSet(names))
    {
      active := ctx.update && (ctx.updateOnly == {} || exists n | n in names :: n in ctx.updateOnly);
      assert forall n :: n in names <==> n in ToSet(names);
    }

    method FailSource(e: SyncError)
      requires Valid() && NoGoodFree(errors) && !e.NoGoodCopy?
      modifies this`tally, this`errors
      ensures Valid() && NoGoodFree(errors)
      ensures Now() == old(Now()).(tally := old(tally).(failed := old(tally.failed) + 1))
    {
      StillNoGoodFree(errors, e);
      tally := tally.(failed := tally.failed + 1);
      errors := errors + [e];
    }

    /** One configured source: the locked guard, the fetch decision, and the work. */
    method SyncSource(src: SourceSpec)
      requires Valid() && (!clean ==> tally.failed > 0) && NoGoodFree(errors)
      modifies this
      ensures Valid() && (!clean ==> tally.failed > 0) && NoGoodFree(errors) && skipped == old(skipped)
      ensures tally.failed >= old(tally.failed) && old(lock).Keys <= lock.Keys
      ensures clean ==> old(clean)
      ensures !apply ==> lock == old(lock) && disk == old(disk) && clean == old(clean)
      ensures old(clean && Calm(ctx, World(lock, disk), src)) ==> clean
      ensures clean && old(WellKeyed(lock)) ==> Now() == StepSource(ctx, apply, old(Now()), src)
    {
      hide CacheExact, CacheSound, NoGoodFree, WellKeyed, DesiredNames, SkillSync.NeedsFetch, Satisfiable,
        UpdateActive, StepSource, FetchedAll, ServedAll, NoDup, KnownGood, Unservable, ItemNames, Calm, CalmFetch, AllServed;
      ghost var s0 := Now();
      var names := NamesToServe(src);
      if ctx.locked {
        var ok := IsSatisfiable(src, names);
        if !ok {
          FailSource(Unsatisfiable);
          StepFails(ctx, apply, s0, src);
          return;
        }
      }
      var fetch := IsUpdateActive(names);
      if !fetch {
        fetch := NeedsFetch(src, names);
      }
      if fetch && ctx.locked {
        FailSource(FetchForbidden);
        if clean { StepFails(ctx, apply, s0, src); }
        return;
      }
      if fetch {
        if clean { CalmFetches(ctx, s0.world, src); }
        SyncViaFetch(src);
        if clean {
          StepFetches(ctx, apply, s0, src, Now());
        }
      } else {
        if clean { CalmServes(ctx, s0.world, src, names); }
        SyncFromLock(src, names);
        if clean && old(WellKeyed(lock)) {
          StepServes(ctx, apply, s0, src, names, Now());
        }
      }
    }

    /** Every source in turn. The cache stays sound throughout, broken copies included. */
    method SyncSources()
      requires Valid() && (!clean ==> tally.failed > 0) && NoGoodFree(errors)
      requires tally == ZERO && desired == {}
      modifies this
      ensures Valid() && (!clean ==> tally.failed > 0) && NoGoodFree(errors) && skipped == old(skipped)
      ensures old(lock).Keys <= lock.Keys
      ensures clean ==> old(clean)
      ensures !apply ==> lock == old(lock) && disk == old(disk) && clean == old(clean)
      ensures clean && old(WellKeyed(lock)) ==> Now() == RunSources(ctx, apply, Start(World(old(lock), old(disk))), |ctx.sources|)
      ensures old(clean) && old(WellKeyed(lock)) && CalmRun(ctx, apply, World(old(lock), old(disk))) ==> clean
    {
      hide CacheExact, CacheSound, NoGoodFree, WellKeyed, StepSource, Calm;
      ghost var w0 := World(lock, disk);
      for i := 0 to |ctx.sources|
        invariant Valid() && (!clean ==> tally.failed > 0) && NoGoodFree(errors) && skipped == old(skipped)
        invariant old(lock).Keys <= lock.Keys
        invariant clean ==> old(clean)
        invariant !apply ==> lock == old(lock) && disk == old(disk) && clean == old(clean)
        invariant clean && WellKeyed(w0.lock) ==> Now() == RunSources(ctx, apply, Start(w0), i)
        invariant old(clean) && WellKeyed(w0.lock) && CalmRun(ctx, apply, w0) ==> clean
      {
        if WellKeyed(w0.lock) { RunKeepsKeyed(ctx, apply, w0, i); }
        SyncSource(ctx.sources[i]);
      }
    }

    /** `remove_stale`: drops every locked skill nobody asked for, with its recorded directory. */
    method RemoveStale()
      requires tally.failed == 0
      modifies this`lock, this`disk, this`tally
      ensures Now() == Prune(apply, old(Now()))
    {
      hide DropAll, Prune, Stale;
      ghost var s0 := Now();
      var snapshot := lock;
      var todo := snapshot.Keys;
      ghost var gone: set<Key> := {};
      DropNone(s0.world);
      while todo != {}
        invariant todo <= snapshot.Keys && gone <= snapshot.Keys
        invariant forall x :: x in gone <==> x in snapshot && x !in todo && x !in desired
        invariant tally == s0.tally.(removed := s0.tally.removed + |gone|)
        invariant World(lock, disk) == if apply then DropAll(s0.world, gone) else s0.world
      {
        var k :| k in todo;
        if k !in desired {
          DropNext(s0.world, gone, k);
          if apply {
            disk := disk - {snapshot[k].destination};
            lock := lock - {k};
          }
          tally := tally.(removed := tally.removed + 1);
          assert k !in gone;
          gone := gone + {k};
        }
        todo := todo - {k};
      }
      DroppedStale(apply, s0, gone);
    }

    method SyncSkills()
      requires Valid() && clean && NoGoodFree(errors) && tally == ZERO && desired == {}
      modifies this
      ensures tally.failed == 0 ==> clean
      ensures NoGoodFree(errors) && skipped == old(skipped)
      ensures tally.failed > 0 ==> old(lock).Keys <= lock.Keys
      ensures !apply ==> lock == old(lock) && disk == old(disk) && clean
      ensures clean && old(WellKeyed(lock)) ==> Now() == SkillSync.SyncSkills(ctx, apply, World(old(lock), old(disk)))
      ensures old(WellKeyed(lock)) && CalmRun(ctx, apply, World(old(lock), old(disk))) ==> clean
    {
      hide CacheExact, CacheSound, NoGoodFree, WellKeyed, RunSources, PruneWorld;
      SyncSources();
      if tally.failed == 0 {
        RemoveStale();
      }
    }
  }

  lemma OneKeepsKeyed(ctx: Ctx, apply: bool, s: State, k: Key, want: Wanted)
    requires ctx.Valid() && WellKeyed(s.world.lock) && (want.latest.None? ==> k in s.world.lock)
    ensures WellKeyed(ProcessedOne(ctx, apply, s, k, want).world.lock)
  {
    hide CountOne;
  }

  lemma {:induction false} AllKeepKeyed(ctx: Ctx, apply: bool, s: State, source: Source, tasks: seq<Task>)
    requires ctx.Valid() && WellKeyed(s.world.lock) && TasksServable(s.world.lock, source, tasks)
    ensures WellKeyed(ProcessAll(ctx, apply, s, source, tasks).world.lock)
    decreases |tasks|
  {
    hide WellKeyed, ProcessedOne;
    if tasks != [] {
      var n := |tasks| - 1;
      AllKeepKeyed(ctx, apply, s, source, tasks[..n]);
      OneKeepsKeyed(ctx, apply, ProcessAll(ctx, apply, s, source, tasks[..n]), Key(source, tasks[n].name), tasks[n].want);
    }
  }

  lemma {:induction false} RunKeepsKeyed(ctx: Ctx, apply: bool, w: World, i: nat)
    requires ctx.Valid() && WellKeyed(w.lock) && i <= |ctx.sources|
    ensures WellKeyed(RunSources(ctx, apply, Start(w), i).world.lock)
  {
    hide WellKeyed, SourceFails, Tasks, ProcessAll, Fetches, Broken;
    if i > 0 {
      RunKeepsKeyed(ctx, apply, w, i - 1);
      var s, src := RunSources(ctx, apply, Start(w), i - 1), ctx.sources[i - 1];
      if !SourceFails(ctx, s.world, src) {
        TasksAreServable(ctx, s.world, src);
        AllKeepKeyed(ctx, apply, WithBroken(ctx, s.world, s, src), src.source, Tasks(ctx, s.world, src));
      }
    }
  }

  /** The lock and the disk after dropping these entries and their recorded directories. */
  ghost function DropAll(w: World, gone: set<Key>): World
    requires gone <= w.lock.Keys
  {
    World(w.lock - gone, w.disk - (set k | k in gone :: w.lock[k].destination))
  }

  lemma DropNone(w: World)
    ensures DropAll(w, {}) == w
  {
    assert w.lock - {} == w.lock && w.disk - {} == w.disk;
  }

  lemma DroppedStale(apply: bool, s: State, gone: set<Key>)
    requires s.tally.failed == 0 && gone <= s.world.lock.Keys
    requires forall x :: x in gone <==> x in s.world.lock && x !in s.desired
    ensures Prune(apply, s) ==
      State(if apply then DropAll(s.world, gone) else s.world, s.tally.(removed := s.tally.removed + |gone|), s.desired)
  {
    assert gone == Stale(s);
  }

  lemma DropNext(w: World, gone: set<Key>, k: Key)
    requires gone <= w.lock.Keys && k in w.lock
    ensures var part := DropAll(w, gone);
      World(part.lock - {k}, part.disk - {w.lock[k].destination}) == DropAll(w, gone + {k})
  {
    var part := DropAll(w, gone);
    assert part.lock - {k} == w.lock - (gone + {k});
    assert (set j | j in gone + {k} :: w.lock[j].destination)
        == (set j | j in gone :: w.lock[j].destination) + {w.lock[k].destination};
    assert part.disk - {w.lock[k].destination} == w.disk - (set j | j in gone + {k} :: w.lock[j].destination);
  }

  /** A whole skills sync. Whatever the copies do: a preview writes nothing, a run with failures prunes
      nothing, and serving from the lock never lacks a good copy. Without failures it does exactly what
      the reference says; an applied one then leaves lock and destinations in step, and what it found outdated
      (another pin, not locked, or no good copy left) as fetched. */
  method Sync(ctx: Ctx, apply: bool, copies: nat -> CopyOutcome, lock: Lock, disk: Disk)
    returns (lock': Lock, disk': Disk, tally: Tally, errors: seq<SyncError>)
    requires ctx.Valid()
    ensures forall e :: e in errors ==> !e.NoGoodCopy?
    ensures !apply ==> lock' == lock && disk' == disk
    ensures tally.failed > 0 ==> lock.Keys <= lock'.Keys
    ensures (tally.failed == 0 || !apply || CalmRun(ctx, apply, World(lock, disk))) && WellKeyed(lock) ==>
      var r := SkillSync.SyncSkills(ctx, apply, World(lock, disk)); lock' == r.world.lock && disk' == r.world.disk && tally == r.tally
    ensures apply && tally.failed == 0 && WellKeyed(lock) && NamesOnce(ctx, World(lock, disk)) ==>
      forall k, d :: k in lock' && d in ctx.dests ==> Matches(disk', d, k.skill, lock'[k].hash)
    ensures apply && tally.failed == 0 && WellKeyed(lock) && NamesOnce(ctx, World(lock, disk)) && OneWay(ctx.sources) ==>
      SkillOutcome.OutdatedAreFetched(ctx, World(lock, disk), World(lock', disk'))
  {
    hide CacheExact, CacheSound, SkillSync.SyncSkills, NamesOnce, Matches, WellKeyed, OneWay, SkillOutcome.OutdatedAreFetched;
    var driver := new Driver(ctx, apply, copies, lock, disk);
    driver.SyncSkills();
    lock', disk', tally, errors := driver.lock, driver.disk, driver.tally, driver.errors;
    if apply && tally.failed == 0 && WellKeyed(lock) && NamesOnce(ctx, World(lock, disk)) {
      SyncIsSound(ctx, World(lock, disk));
      if OneWay(ctx.sources) { SkillOutcome.RunFetchesOutdated(ctx, World(lock, disk)); }
    }
  }

  lemma StepFails(ctx: Ctx, apply: bool, s: State, src: SourceSpec)
    requires ctx.Valid() && ctx.locked && (Satisfiable(s.world.lock, src) ==> Fetches(ctx, s.world, src))
    ensures StepSource(ctx, apply, s, src) == s.(tally := s.tally.(failed := s.tally.failed + 1))
  {
    hide Satisfiable, Fetches;
  }

  lemma StepFetches(ctx: Ctx, apply: bool, s: State, src: SourceSpec, s': State)
    requires ctx.Valid() && !ctx.locked && Fetches(ctx, s.world, src)
    requires ctx.fetch(src).FetchFailed? || src.skills == Wildcard(false) ==> s' == s.(tally := s.tally.(failed := s.tally.failed + 1))
    requires ctx.fetch(src).Fetched? && src.skills != Wildcard(false) ==> FetchedAll(ctx, apply, s, src, s')
    ensures StepSource(ctx, apply, s, src) == s'
  {
    hide Fetches, Broken, ProcessAll, FetchTasks;
  }

  lemma StepServes(ctx: Ctx, apply: bool, s: State, src: SourceSpec, names: seq<Name>, s': State)
    requires ctx.Valid() && !Fetches(ctx, s.world, src) && (ctx.locked ==> Satisfiable(s.world.lock, src))
    requires ToSet(names) == DesiredNames(s.world.lock, src)
    requires src.skills.List? ==> names == ItemNames(src.skills.items)
    requires src.skills.Wildcard? ==> NoDup(names)
    requires ServedAll(ctx, apply, s, src.source, names, s')
    ensures StepSource(ctx, apply, s, src) == s'
  {
    hide Fetches, Satisfiable, DesiredNames, ProcessAll, NoDup;
    if src.skills.Wildcard? {
      var lock := s.world.lock;
      NameSeqIsOnce(lock, src);
      SameNamesSame(ctx, apply, s, src.source, names, NameSeq(lock, src));
    }
  }

  /** Serving different names from the lock comes to the same in any order. */
  lemma SameNamesSame(ctx: Ctx, apply: bool, s: State, source: Source, a: seq<Name>, b: seq<Name>)
    requires ctx.Valid() && NoDup(a) && NoDup(b) && ToSet(a) == ToSet(b)
    ensures TasksServable(s.world.lock, source, LockTasks(s.world.lock, source, a))
    ensures TasksServable(s.world.lock, source, LockTasks(s.world.lock, source, b))
    ensures ProcessAll(ctx, apply, s, source, LockTasks(s.world.lock, source, a))
         == ProcessAll(ctx, apply, s, source, LockTasks(s.world.lock, source, b))
  {
    hide NoDup, LockTasks, ProcessAll, Enumerates, ApplyWants, Counted;
    var lock := s.world.lock;
    LockTasksAreLocked(lock, source, a);
    LockTasksAreLocked(lock, source, b);
    LockEnumerates(lock, source, a);
    LockEnumerates(lock, source, b);
    AllAtOnce(ctx, apply, s, source, LockTasks(lock, source, a), LockedWants(lock, source, ToSet(a)));
    AllAtOnce(ctx, apply, s, source, LockTasks(lock, source, b), LockedWants(lock, source, ToSet(a)));
  }

  /** The state after a whole fetched source. */
  ghost predicate FetchedAll(ctx: Ctx, apply: bool, s0: State, src: SourceSpec, s: State)
    requires ctx.Valid() && ctx.fetch(src).Fetched?
  {
    var f := ctx.fetch(src);
    Processed(ctx, apply, s0.(tally := s0.tally.(broken := s0.tally.broken + Broken(src, f))), src.source, FetchTasks(src, f), s)
  }

  /** The reference state after these tasks. */
  ghost predicate Processed(ctx: Ctx, apply: bool, s0: State, source: Source, tasks: seq<Task>, s: State)
    requires ctx.Valid()
  {
    TasksServable(s0.world.lock, source, tasks) && s == ProcessAll(ctx, apply, s0, source, tasks)
  }

  lemma ProcessedNone(ctx: Ctx, apply: bool, s0: State, source: Source)
    requires ctx.Valid()
    ensures Processed(ctx, apply, s0, source, [], s0)
  {
  }

  lemma ProcessedNext(ctx: Ctx, apply: bool, s0: State, s1: State, source: Source, tasks: seq<Task>, i: nat, s2: State)
    requires ctx.Valid() && i < |tasks| && Processed(ctx, apply, s0, source, tasks[..i], s1)
    requires tasks[i].want.latest.None? ==> Key(source, tasks[i].name) in s0.world.lock && Key(source, tasks[i].name) in s1.world.lock
    requires s2 == ProcessedOne(ctx, apply, s1, Key(source, tasks[i].name), tasks[i].want)
    ensures Processed(ctx, apply, s0, source, tasks[..i + 1], s2)
  {
    hide ProcessedOne;
    assert tasks[..i + 1][..i] == tasks[..i];
    forall j | 0 <= j < i ensures tasks[..i][j] == tasks[..i + 1][j] {}
  }

  /** The tasks for what `select_targets` returned. */
  ghost function Planned(targets: seq<(Name, Item)>, f: Fetched): seq<Task>
    requires f.Fetched?
  {
    seq(|targets|, i requires 0 <= i < |targets| => Task(targets[i].0, Latest(targets[i].1, f)))
  }

  lemma PlannedNext(targets: seq<(Name, Item)>, t: (Name, Item), f: Fetched)
    requires f.Fetched?
    ensures Planned(targets + [t], f) == Planned(targets, f) + [Task(t.0, Latest(t.1, f))]
  {
  }

  /** A list's targets are those of the reference in the same order; a wildcard's come in any order. */
  ghost predicate Selects(src: SourceSpec, f: Fetched, tasks: seq<Task>)
    requires f.Fetched?
  {
    match src.skills
    case List(items) => tasks == ListTasks(items, f)
    case Wildcard(_) => Enumerates(tasks, WantsOf(src, f))
  }

  lemma ListSelects(src: SourceSpec, f: Fetched, targets: seq<(Name, Item)>)
    requires f.Fetched? && src.skills.List? && Planned(targets, f) == ListTasks(src.skills.items, f)
    ensures Selects(src, f, Planned(targets, f))
  {
  }

  lemma WildcardSelects(src: SourceSpec, f: Fetched, targets: seq<(Name, Item)>)
    requires f.Fetched? && src.skills.Wildcard?
    requires forall i, j :: 0 <= i < j < |targets| ==> targets[i].0 != targets[j].0
    requires forall n :: n in f.available <==> exists i :: 0 <= i < |targets| && targets[i].0 == n
    requires forall i :: 0 <= i < |targets| ==> targets[i].0 in f.available && targets[i].1 == f.available[targets[i].0]
    ensures Selects(src, f, Planned(targets, f))
  {
    var tasks, want := Planned(targets, f), WantsOf(src, f);
    forall n | n in want ensures Task(n, want[n]) in tasks {
      var i :| 0 <= i < |targets| && targets[i].0 == n;
      assert tasks[i] == Task(n, want[n]);
    }
  }

  lemma OneMoreTarget(all: set<Name>, todo: set<Name>, before: seq<(Name, Item)>, n: Name, after: seq<(Name, Item)>)
    requires n in all && n !in todo && |after| == |before| + 1 && after[..|before|] == before && after[|before|].0 == n
    requires forall m :: m in all - (todo + {n}) <==> exists i :: 0 <= i < |before| && before[i].0 == m
    ensures forall m :: m in all - todo <==> exists i :: 0 <= i < |after| && after[i].0 == m
    ensures forall i :: 0 <= i < |before| ==> before[i].0 != n && after[i] == before[i]
  {
    forall i | 0 <= i < |before| ensures before[i].0 != n && after[i] == before[i] {
      assert before[i].0 in all - (todo + {n});
      assert after[..|before|][i] == after[i];
    }
    forall m ensures m in all - todo <==> exists i :: 0 <= i < |after| && after[i].0 == m {
      if m in all - (todo + {n}) {
        var i :| 0 <= i < |before| && before[i].0 == m;
        assert after[i].0 == m;
      }
    }
  }

  lemma SelectedInPlace(ctx: Ctx, w: World, src: SourceSpec, tasks: seq<Task>)
    requires CalmFetch(ctx, w, src) && Selects(src, ctx.fetch(src), tasks)
    ensures AllInPlace(ctx, w, src.source, tasks)
  {
    hide Unchanged, ListTasks;
    if src.skills.Wildcard? {
      FetchEnumerates(src, ctx.fetch(src));
      var want := WantsOf(src, ctx.fetch(src));
      forall t | t in tasks ensures Unchanged(ctx, w, Key(src.source, t.name), t.want.tree) {
        assert Task(t.name, want[t.name]) in FetchTasks(src, ctx.fetch(src));
      }
    }
  }

  /** The targets, processed in the driver's order, come to what the reference says. */
  lemma FetchDone(ctx: Ctx, apply: bool, start: State, s0: State, src: SourceSpec, tasks: seq<Task>, s: State)
    requires ctx.Valid() && ctx.fetch(src).Fetched? && Selects(src, ctx.fetch(src), tasks)
    requires s0 == start.(tally := start.tally.(broken := start.tally.broken + Broken(src, ctx.fetch(src))))
    requires Processed(ctx, apply, s0, src.source, tasks, s)
    ensures FetchedAll(ctx, apply, start, src, s)
  {
    hide ProcessAll, ListTasks, Enumerates, ApplyWants, Counted, Broken;
    var f := ctx.fetch(src);
    FetchTasksAreLatest(src, f);
    if src.skills.Wildcard? {
      FetchEnumerates(src, f);
      WantsAreLatest(s0.world, src, f);
      AllAtOnce(ctx, apply, s0, src.source, tasks, WantsOf(src, f));
      AllAtOnce(ctx, apply, s0, src.source, FetchTasks(src, f), WantsOf(src, f));
    }
  }

  lemma WantsAreLatest(w: World, src: SourceSpec, f: Fetched)
    requires f.Fetched?
    ensures Servable(w, src.source, WantsOf(src, f))
  {
  }

  /** "No good local copy to repair from" was never reported. */
  ghost predicate NoGoodFree(errors: seq<SyncError>) {
    forall e :: e in errors ==> !e.NoGoodCopy?
  }

  lemma StillNoGoodFree(errors: seq<SyncError>, e: SyncError)
    requires NoGoodFree(errors) && !e.NoGoodCopy?
    ensures NoGoodFree(errors + [e])
  {
  }

  lemma GoodIsKnown(ctx: Ctx, cache: map<Path, Option<Hash>>, n: Name, h: Hash, good: Option<Dest>)
    requires good.Some? && good.value in ctx.dests && Path(good.value, n) in cache && cache[Path(good.value, n)] == Some(h)
    ensures KnownGood(ctx, cache, n, h)
  {
  }

  /** The reference state after serving these names from the lock. */
  ghost predicate ServedAll(ctx: Ctx, apply: bool, s0: State, source: Source, names: seq<Name>, s: State)
    requires ctx.Valid()
  {
    Processed(ctx, apply, s0, source, LockTasks(s0.world.lock, source, names), s)
  }

  lemma ServedNone(ctx: Ctx, apply: bool, s0: State, source: Source)
    requires ctx.Valid()
    ensures ServedAll(ctx, apply, s0, source, [], s0)
  {
  }

  lemma ServeNext(ctx: Ctx, apply: bool, s0: State, s1: State, source: Source, names: seq<Name>, i: nat, s2: State)
    requires ctx.Valid() && i < |names| && AllLocked(s0.world.lock, source, names)
    requires ServedAll(ctx, apply, s0, source, names[..i], s1)
    requires s1.world.lock == s0.world.lock == s2.world.lock
    requires s2.desired == s1.desired + {Key(source, names[i])}
    requires var k := Key(source, names[i]);
      s2.(desired := {}) == ProcessedOne(ctx, apply, s1.(desired := {}), k, Wanted(s1.world.lock[k].hash.of, None)).(desired := {})
    ensures ServedAll(ctx, apply, s0, source, names[..i + 1], s2)
  {
    hide ApplyOne, CountOne;
    var lock, n := s0.world.lock, names[i];
    var before, after := LockTasks(lock, source, names[..i]), LockTasks(lock, source, names[..i + 1]);
    assert names[..i + 1][..i] == names[..i] && names[..i + 1][i] == n && n in names;
    assert after == before + [Task(n, Wanted(lock[Key(source, n)].hash.of, None))];
    assert after[..|before|] == before && after[..|before| + 1] == after;
    ProcessedNext(ctx, apply, s0, s1, source, after, |before|, s2);
  }

  lemma AlreadyWritten(ctx: Ctx, disk: Disk, n: Name, tree: Tree)
    requires AllMatch(ctx, disk, n, Sha(tree))
    ensures disk == disk + (map p: Path | p in PathsOf(ctx, {n}) :: tree)
  {
    forall d | d in ctx.dests ensures Matches(disk, d, n, Sha(tree)) {}
    SameOffSelf(disk, n, ctx.dests);
    DiskWritten(ctx, disk, disk, n, tree);
  }

  lemma SameOffSelf<V>(a: map<Path, V>, n: Name, ds: seq<Dest>)
    ensures SameOff(a, a, n, ds, None)
  {
  }

  lemma GoodIsThere(cache: map<Path, Option<Hash>>, disk: Disk, d: Dest, n: Name, h: Hash)
    requires CacheSound(cache, disk) && Path(d, n) in cache && cache[Path(d, n)] == Some(h)
    ensures Path(d, n) in disk && disk[Path(d, n)] == h.of && Matches(disk, d, n, h)
  {
  }

  lemma KnownGoodExtends(ctx: Ctx, before: map<Path, Option<Hash>>, after: map<Path, Option<Hash>>)
    requires Extends(before, after)
    ensures forall m, h :: KnownGood(ctx, before, m, h) ==> KnownGood(ctx, after, m, h)
  {
    forall m, h | KnownGood(ctx, before, m, h) ensures KnownGood(ctx, after, m, h) {
      var d :| d in ctx.dests && Path(d, m) in before && before[Path(d, m)] == Some(h);
      assert Path(d, m) in after && after[Path(d, m)] == Some(h);
    }
  }

  /** Repairing `n` from its spared copy costs no other skill, nor itself, its known good copy. */
  lemma KnownGoodSurvives(ctx: Ctx, before: map<Path, Option<Hash>>, after: map<Path, Option<Hash>>, n: Name, spared: Dest, h0: Hash)
    requires SameOff(before, after, n, ctx.dests, Some(spared)) && spared in ctx.dests
    requires Path(spared, n) in before && before[Path(spared, n)] == Some(h0)
    ensures forall m, h :: KnownGood(ctx, before, m, h) && (m == n ==> h == h0) ==> KnownGood(ctx, after, m, h)
  {
    forall m, h | KnownGood(ctx, before, m, h) && (m == n ==> h == h0) ensures KnownGood(ctx, after, m, h) {
      var d :| d in ctx.dests && Path(d, m) in before && before[Path(d, m)] == Some(h);
      var d' := if m == n then spared else d;
      assert SameAt(before, after, Path(d', m));
    }
  }

  /** Equal off the directories of `n` in `ds`, and at the spared one. */
  ghost predicate SameOff<V>(a: map<Path, V>, b: map<Path, V>, n: Name, ds: seq<Dest>, spared: Option<Dest>) {
    forall q: Path :: q.name != n || q.dest !in ds || spared == Some(q.dest) ==> SameAt(a, b, q)
  }

  lemma SameOffNext<V>(a: map<Path, V>, b: map<Path, V>, c: map<Path, V>, n: Name, ds: seq<Dest>, i: nat, spared: Option<Dest>)
    requires i < |ds| && SameOff(a, b, n, ds[..i], spared)
    requires b == c || (spared != Some(ds[i]) && forall q :: q != Path(ds[i], n) ==> SameAt(b, c, q))
    ensures SameOff(a, c, n, ds[..i + 1], spared) && SameOff(a, c, n, ds, spared) && SameOff(a, c, n, ds, None)
  {
    forall q: Path | q.name != n || q.dest !in ds[..i + 1] || spared == Some(q.dest) ensures SameAt(a, c, q) {
      assert q.dest in ds[..i] ==> q.dest in ds[..i + 1];
      assert ds[..i + 1][i] == ds[i];
      assert SameAt(a, b, q);
      if b != c { assert SameAt(b, c, q); }
    }
  }

  /** Writing one tree to every destination is what the reference does to the disk. */
  lemma DiskWritten(ctx: Ctx, before: Disk, after: Disk, n: Name, tree: Tree)
    requires forall d :: d in ctx.dests ==> Matches(after, d, n, Sha(tree))
    requires SameOff(before, after, n, ctx.dests, None)
    ensures after == before + (map p: Path | p in PathsOf(ctx, {n}) :: tree)
  {
    var other := before + (map p: Path | p in PathsOf(ctx, {n}) :: tree);
    forall q ensures SameAt(after, other, q) {
      if q.name == n && q.dest in ctx.dests { assert Matches(after, q.dest, n, Sha(tree)); }
      else { assert SameAt(before, after, q); }
    }
    SameMaps(after, other);
  }

  lemma StatusMeaning(ctx: Ctx, cache: map<Path, Option<Hash>>, disk: Disk, n: Name, h: Hash, allMatch: bool, good: Option<Dest>, exact: bool)
    requires ctx.Valid() && CacheSound(cache, disk) && (exact ==> CacheExact(cache, disk))
    requires forall j :: 0 <= j < |ctx.dests| ==> Path(ctx.dests[j], n) in cache
    requires good.Some? ==> good.value in ctx.dests && cache[Path(good.value, n)] == Some(h)
    requires good.None? ==> forall j :: 0 <= j < |ctx.dests| ==> cache[Path(ctx.dests[j], n)] != Some(h)
    requires allMatch <==> forall j :: 0 <= j < |ctx.dests| ==> cache[Path(ctx.dests[j], n)] == Some(h)
    ensures good.None? ==> !KnownGood(ctx, cache, n, h)
    ensures allMatch ==> good.Some? && AllMatch(ctx, disk, n, h)
    ensures exact ==> (allMatch <==> AllMatch(ctx, disk, n, h)) && (good.Some? <==> SomeGood(ctx, disk, n, h))
  {
    forall d | d in ctx.dests
      ensures Path(d, n) in cache
      ensures cache[Path(d, n)] == Some(h) ==> Matches(disk, d, n, h)
      ensures exact && Matches(disk, d, n, h) ==> cache[Path(d, n)] == Some(h)
    {
      var j :| 0 <= j < |ctx.dests| && ctx.dests[j] == d;
      assert Path(ctx.dests[j], n) in cache;
    }
    assert allMatch ==> cache[Path(ctx.dests[0], n)] == Some(h);
    if exact && AllMatch(ctx, disk, n, h) {
      forall j | 0 <= j < |ctx.dests| ensures cache[Path(ctx.dests[j], n)] == Some(h) {
        assert Matches(disk, ctx.dests[j], n, h);
      }
    }
  }

  /** The preview's counts are those of the applied run that follows it. */
  method PreviewThenApply(ctx: Ctx, copies: nat -> CopyOutcome, lock: Lock, disk: Disk)
    returns (preview: Tally, applied: Tally, lock': Lock, disk': Disk)
    requires ctx.Valid()
    ensures applied.failed == 0 && WellKeyed(lock) && Distinct(ctx, World(lock, disk)) ==> preview == applied
  {
    hide SkillSync.SyncSkills, Distinct, Matches, WellKeyed;
    var lock1, disk1, errors;
    lock1, disk1, preview, errors := Sync(ctx, false, copies, lock, disk);
    lock', disk', applied, errors := Sync(ctx, true, copies, lock1, disk1);
    if WellKeyed(lock) && Distinct(ctx, World(lock, disk)) {
      PreviewIsTruthful(ctx, World(lock, disk));
    }
  }

  /** After a failure-free run, every source of the next one finds its skills in place. */
  lemma SecondRunIsCalm(ctx: Ctx, w: World)
    requires ctx.Valid() && NamesOnce(ctx, w) && OneWay(ctx.sources) && WellKeyed(w.lock)
    requires SkillSync.SyncSkills(ctx, true, w).tally.failed == 0
    ensures CalmRun(ctx, true, SkillSync.SyncSkills(ctx, true, w).world)
  {
    hide RunSources, NamesOnce, WellKeyed, OneWay, Calm, Idle, PruneWorld, Mine, AskedBy, Stale;
    var s := RunSources(ctx, true, Start(w), |ctx.sources|);
    RunIsResting(ctx, w);
    forall i | 0 <= i < |ctx.sources| ensures Calm(ctx, RunSources(ctx, true, Start(PruneWorld(s)), i).world, ctx.sources[i]) {
      IdleRun(ctx, s, i);
      IdleIsCalm(ctx, PruneWorld(s), ctx.sources[i]);
    }
  }

  lemma IdleIsCalm(ctx: Ctx, w: World, src: SourceSpec)
    requires Idle(ctx, w, src)
    ensures Calm(ctx, w, src)
  {
    hide SourceFails, Tasks, AllMatch;
    forall t | t in Tasks(ctx, w, src) ensures Unchanged(ctx, w, Key(src.source, t.name), t.want.tree) {
      assert IdleTask(ctx, w, src.source, t);
    }
  }

  /** After a failure-free run the next one attempts no copy, so it cannot fail, and it finds nothing to do. */
  method SyncTwice(ctx: Ctx, copies: nat -> CopyOutcome, copiesAgain: nat -> CopyOutcome, lock: Lock, disk: Disk)
    returns (first: Tally, second: Tally, lock1: Lock, disk1: Disk, lock2: Lock, disk2: Disk)
    requires ctx.Valid()
    ensures first.failed == 0 && WellKeyed(lock) && NamesOnce(ctx, World(lock, disk)) && OneWay(ctx.sources) ==>
      lock2 == lock1 && disk2 == disk1 && second.installed == second.updated == second.removed == second.failed == 0
  {
    hide SkillSync.SyncSkills, NamesOnce, OneWay, Matches, WellKeyed, CalmRun;
    var errors;
    lock1, disk1, first, errors := Sync(ctx, true, copies, lock, disk);
    lock2, disk2, second, errors := Sync(ctx, true, copiesAgain, lock1, disk1);
    if first.failed == 0 && WellKeyed(lock) && NamesOnce(ctx, World(lock, disk)) && OneWay(ctx.sources) {
      SkillOutcome.AfterIsKeyed(ctx, World(lock, disk));
      SecondRunIsCalm(ctx, World(lock, disk));
      SyncConverges(ctx, World(lock, disk));
    }
  }
}

/** When the lock key's text determines the source and the skill. */
module SkillKeys {

  /** `skill_key`: `<source>::<skill>`. */
  function SkillKey(source: string, skill: string): string {
    source + "::" + skill
  }

  /** `n` ends in another name behind a separator, or is that name behind a single colon. */
  predicate Shadows(n: string, m: string) {
    (|n| >= |m| + 2 && n[|n| - |m| - 2..] == "::" + m) || n == ":" + m
  }

  lemma LongerSourceShadows(s1: string, n1: string, s2: string, n2: string)
    requires SkillKey(s1, n1) == SkillKey(s2, n2) && |s1| < |s2|
    ensures Shadows(n1, n2)
  {
    var k := SkillKey(s1, n1);
    assert k[|s1| + 2..] == n1;
    assert k[|s2|..] == "::" + n2;
    if |s2| == |s1| + 1 {
      assert n1 == k[|s2|..][1..] == ":" + n2;
    } else {
      assert n1[|n1| - |n2| - 2..] == k[|s2|..];
    }
  }

  /** With the names given, the text determines the source. */
  lemma SameLengthSources(s1: string, n1: string, s2: string, n2: string)
    requires SkillKey(s1, n1) == SkillKey(s2, n2) && |s1| == |s2|
    ensures s1 == s2 && n1 == n2
  {
    var k := SkillKey(s1, n1);
    assert k[..|s1|] == s1 && k[|s1| + 2..] == n1;
    assert k[..|s2|] == s2 && k[|s2| + 2..] == n2;
  }

  lemma ShadowsShare(n: string, m: string) returns (s1: string, s2: string)
    requires Shadows(n, m)
    ensures SkillKey(s1, n) == SkillKey(s2, m)
  {
    if n == ":" + m {
      s1, s2 := "", ":";
      assert "" + "::" + (":" + m) == ":" + "::" + m;
    } else {
      var front := n[..|n| - |m| - 2];
      s1, s2 := "", "::" + front;
      assert n == front + ("::" + m);
      assert "" + "::" + (front + ("::" + m)) == "::" + front + "::" + m;
    }
  }

  ghost predicate CanShare(n: string, m: string) {
    exists s1, s2 :: SkillKey(s1, n) == SkillKey(s2, m)
  }

  /** Two different skill names can end up under one key exactly when one shadows the other. */
  lemma NamesShareExactly(n: string, m: string)
    requires n != m
    ensures CanShare(n, m) <==> Shadows(n, m) || Shadows(m, n)
  {
    if CanShare(n, m) {
      var s1, s2 :| SkillKey(s1, n) == SkillKey(s2, m);
      if |s1| < |s2| {
        LongerSourceShadows(s1, n, s2, m);
      } else if |s2| < |s1| {
        LongerSourceShadows(s2, m, s1, n);
      } else {
        SameLengthSources(s1, n, s2, m);
      }
    }
    if Shadows(n, m) { var s1, s2 := ShadowsShare(n, m); }
    if Shadows(m, n) { var s1, s2 := ShadowsShare(m, n); assert SkillKey(s2, n) == SkillKey(s1, m); }
  }

  /** Names that shadow no other: equal keys mean the same source and the same skill. */
  lemma SkillKeyIsInjective(s1: string, n1: string, s2: string, n2: string)
    requires !Shadows(n1, n2) && !Shadows(n2, n1) && SkillKey(s1, n1) == SkillKey(s2, n2)
    ensures s1 == s2 && n1 == n2
  {
    if |s1| < |s2| {
      LongerSourceShadows(s1, n1, s2, n2);
    } else if |s2| < |s1| {
      LongerSourceShadows(s2, n2, s1, n1);
    }
    SameLengthSources(s1, n1, s2, n2);
  }

  /** A name without a colon shadows nothing. */
  lemma ShadowHasColon(n: string, m: string)
    requires Shadows(n, m)
    ensures ':' in n
  {
    if n != ":" + m {
      var end := n[|n| - |m| - 2..];
      assert n[|n| - |m| - 2] == end[0] == ':';
    } else {
      assert n[0] == ':';
    }
  }

  /** With colons in a name two different skills can share one key. */
  lemma SkillKeysCollide()
    ensures SkillKey("a", "b::c") == SkillKey("a::b", "c")
  {
    assert SkillKey("a", "b::c") == "a::b::c" == SkillKey("a::b", "c");
  }
}
