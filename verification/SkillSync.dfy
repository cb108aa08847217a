/** What a sync of agent skills means, stated on the lock and the disk alone. */
module SkillSync {
  import opened Collections

  type Name(==, !new)      // a skill's directory name
  type Source(==, !new)    // a source string from the config
  type Dest(==, !new)      // a destination directory
  type SubPath(==, !new)   // the `path` of a `{ name, path }` selector
  type Label(==, !new)     // a resolved revision label
  type Text(==, !new)      // a profile description
  type Tree(==, !new)      // the contents of a skill directory

  /** The content digest, taken to be injective. */
  datatype Hash = Sha(of: Tree)

  /** The lock key `<source>::<name>`; see `SkillKeys` for when the text determines the pair. */
  datatype Key = Key(source: Source, skill: Name)

  /** `dest.join(name)`; destinations are not nested. */
  datatype Path = Path(dest: Dest, name: Name)

  datatype Entry = Entry(
    destination: Path,
    hash: Hash,
    skill: Name,
    description: Text,
    source: Source,
    revision: Option<Label>)      // None: a lock written before revisions were recorded

  datatype Selector = ByName(name: Name) | ByPath(name: Name, path: Option<SubPath>)

  datatype SkillsField = Wildcard(star: bool) | List(items: seq<Selector>)

  /** One configured entry; several may share a `source` string and differ in pin or sub-directory. */
  datatype SourceSpec = SourceSpec(source: Source, subDir: Option<SubPath>, skills: SkillsField, expected: Label)

  datatype Item = Item(tree: Tree, description: Text)

  /** A fetched source: its revision, the skills discovered in it, and those found under explicit paths. */
  datatype Fetched =
    | FetchFailed
    | Fetched(revision: Label, available: map<Name, Item>, located: map<(SubPath, Name), Item>)

  datatype Ctx = Ctx(
    sources: seq<SourceSpec>,
    fetch: SourceSpec -> Fetched,
    dests: seq<Dest>,
    update: bool,
    updateOnly: set<Name>,
    locked: bool)
  {
    /** `resolve_destinations` never returns an empty list. */
    ghost predicate Valid() { dests != [] }
  }

  type Lock = map<Key, Entry>
  type Disk = map<Path, Tree>

  datatype World = World(lock: Lock, disk: Disk)

  datatype Tally = Tally(installed: nat, updated: nat, removed: nat, kept: nat, broken: nat, failed: nat)

  // ------------------------------------------------------- what is asked for

  ghost function ListNames(items: seq<Selector>): set<Name> {
    set s | s in items :: s.name
  }

  ghost predicate HasEntries(lock: Lock, source: Source) {
    exists k :: k in lock && lock[k].source == source
  }

  /** The names a source is asked for without fetching it. */
  ghost function DesiredNames(lock: Lock, src: SourceSpec): set<Name> {
    match src.skills
    case List(items) => ListNames(items)
    case Wildcard(_) => set k | k in lock && lock[k].source == src.source :: lock[k].skill
  }

  /** One selector against a fetched source: a skill, or a broken reference. */
  function Resolve(f: Fetched, s: Selector): Option<Item>
    requires f.Fetched?
  {
    if s.ByPath? && s.path.Some? then
      if (s.path.value, s.name) in f.located then Some(f.located[(s.path.value, s.name)]) else None
    else if s.name in f.available then Some(f.available[s.name])
    else None
  }

  ghost predicate NoDupNames(items: seq<Selector>) {
    forall i, j :: 0 <= i < j < |items| ==> items[i].name != items[j].name
  }

  ghost function BrokenCount(items: seq<Selector>, f: Fetched): nat
    requires f.Fetched?
  {
    if items == [] then 0
    else BrokenCount(items[..|items| - 1], f) + if Resolve(f, items[|items| - 1]).None? then 1 else 0
  }

  ghost function Broken(src: SourceSpec, f: Fetched): nat
    requires f.Fetched?
  {
    match src.skills
    case Wildcard(_) => 0
    case List(items) => BrokenCount(items, f)
  }

  // ------------------------------------------------------------ decisions

  ghost predicate Matches(disk: Disk, d: Dest, n: Name, h: Hash) {
    Path(d, n) in disk && Sha(disk[Path(d, n)]) == h
  }

  /** Every destination holds a tree with this hash. */
  ghost predicate AllMatch(ctx: Ctx, disk: Disk, n: Name, h: Hash) {
    forall d :: d in ctx.dests ==> Matches(disk, d, n, h)
  }

  ghost predicate SomeGood(ctx: Ctx, disk: Disk, n: Name, h: Hash) {
    exists d :: d in ctx.dests && Matches(disk, d, n, h)
  }

  ghost predicate UpdateActive(ctx: Ctx, desired: set<Name>) {
    ctx.update && (ctx.updateOnly == {} || exists n :: n in desired && n in ctx.updateOnly)
  }

  /** The lock cannot serve this skill: no entry, retargeted, or no good copy left. */
  ghost predicate Unservable(ctx: Ctx, w: World, src: SourceSpec, n: Name) {
    var k := Key(src.source, n);
    k !in w.lock
    || (w.lock[k].revision.Some? && w.lock[k].revision.value != src.expected)
    || !SomeGood(ctx, w.disk, n, w.lock[k].hash)
  }

  ghost predicate NeedsFetch(ctx: Ctx, w: World, src: SourceSpec) {
    (src.skills.Wildcard? && !HasEntries(w.lock, src.source))
    || exists n :: n in DesiredNames(w.lock, src) && Unservable(ctx, w, src, n)
  }

  ghost predicate Fetches(ctx: Ctx, w: World, src: SourceSpec) {
    UpdateActive(ctx, DesiredNames(w.lock, src)) || NeedsFetch(ctx, w, src)
  }

  ghost predicate Satisfiable(lock: Lock, src: SourceSpec) {
    match src.skills
    case List(items) => forall n :: n in ListNames(items) ==> Key(src.source, n) in lock
    case Wildcard(_) => HasEntries(lock, src.source)
  }

  /** The source fails as a whole: `--locked` cannot be honoured, the fetch fails, or the field is invalid. */
  ghost predicate SourceFails(ctx: Ctx, w: World, src: SourceSpec) {
    || (ctx.locked && !Satisfiable(w.lock, src))
    || (Fetches(ctx, w, src) && (ctx.locked || ctx.fetch(src).FetchFailed? || src.skills == Wildcard(false)))
  }

  /** What one skill should become; `latest` when it comes from a fetch. */
  datatype Wanted = Wanted(tree: Tree, latest: Option<(Text, Label)>)

  /** One skill to bring in line. */
  datatype Task = Task(name: Name, want: Wanted)

  ghost function Latest(item: Item, f: Fetched): Wanted
    requires f.Fetched?
  {
    Wanted(item.tree, Some((item.description, f.revision)))
  }

  /** The skills a list selects from a fetched source, in the order of the list, repeats included. */
  ghost function ListTasks(items: seq<Selector>, f: Fetched): seq<Task>
    requires f.Fetched?
  {
    if items == [] then []
    else
      var last := items[|items| - 1];
      ListTasks(items[..|items| - 1], f)
      + match Resolve(f, last) case Some(item) => [Task(last.name, Latest(item, f))] case None => []
  }

  /** Some order of a set of names. Wildcards are served in name order; which order does not matter. */
  ghost function Listing(names: set<Name>): (r: seq<Name>)
    ensures NoDup(r) && ToSet(r) == names
  {
    if names == {} then []
    else
      var n :| n in names;
      assert names == (names - {n}) + {n};
      Listing(names - {n}) + [n]
  }

  ghost function AvailableTasks(names: seq<Name>, f: Fetched): seq<Task>
    requires f.Fetched? && forall n :: n in names ==> n in f.available
  {
    seq(|names|, i requires 0 <= i < |names| => Task(names[i], Latest(f.available[names[i]], f)))
  }

  ghost function FetchTasks(src: SourceSpec, f: Fetched): seq<Task>
    requires f.Fetched?
  {
    match src.skills
    case List(items) => ListTasks(items, f)
    case Wildcard(_) =>
      assert forall n :: n in Listing(f.available.Keys) ==> n in ToSet(Listing(f.available.Keys));
      AvailableTasks(Listing(f.available.Keys), f)
  }

  ghost function ItemNames(items: seq<Selector>): seq<Name> {
    seq(|items|, i requires 0 <= i < |items| => items[i].name)
  }

  ghost function NameSeq(lock: Lock, src: SourceSpec): seq<Name> {
    match src.skills
    case List(items) => ItemNames(items)
    case Wildcard(_) => Listing(DesiredNames(lock, src))
  }

  ghost function LockTasks(lock: Lock, source: Source, names: seq<Name>): seq<Task> {
    if names == [] then []
    else
      var n := names[|names| - 1];
      LockTasks(lock, source, names[..|names| - 1])
      + if Key(source, n) in lock then [Task(n, Wanted(lock[Key(source, n)].hash.of, None))] else []
  }

  /** What one source has to bring in line, skill by skill. */
  ghost function Tasks(ctx: Ctx, w: World, src: SourceSpec): seq<Task>
    requires !SourceFails(ctx, w, src)
  {
    if Fetches(ctx, w, src) then FetchTasks(src, ctx.fetch(src))
    else LockTasks(w.lock, src.source, NameSeq(w.lock, src))
  }

  ghost predicate Unchanged(ctx: Ctx, w: World, k: Key, t: Tree) {
    k in w.lock && w.lock[k].hash == Sha(t) && AllMatch(ctx, w.disk, k.skill, Sha(t))
  }

  ghost function EntryAfter(ctx: Ctx, w: World, k: Key, want: Wanted): Entry
    requires ctx.Valid() && (want.latest.None? ==> k in w.lock)
  {
    match want.latest
    case None => w.lock[k]
    case Some(latest) =>
      if Unchanged(ctx, w, k, want.tree) then w.lock[k].(description := latest.0)
      else Entry(Path(ctx.dests[0], k.skill), Sha(want.tree), k.skill, latest.0, k.source, Some(latest.1))
  }

  ghost function PathsOf(ctx: Ctx, names: set<Name>): (ps: set<Path>)
    ensures forall p :: p in ps <==> p.dest in ctx.dests && p.name in names
  {
    set n, d | n in names && d in ctx.dests :: Path(d, n)
  }

  // ----------------------------------------------------- one skill, one source

  ghost function ApplyOne(ctx: Ctx, w: World, k: Key, want: Wanted): World
    requires ctx.Valid() && (want.latest.None? ==> k in w.lock)
  {
    World(w.lock[k := EntryAfter(ctx, w, k, want)],
          w.disk + (map p: Path | p in PathsOf(ctx, {k.skill}) :: want.tree))
  }

  ghost function CountOne(ctx: Ctx, w: World, t: Tally, k: Key, tree: Tree): Tally {
    if Unchanged(ctx, w, k, tree) then t.(kept := t.kept + 1)
    else if k in w.lock then t.(updated := t.updated + 1)
    else t.(installed := t.installed + 1)
  }

  datatype State = State(world: World, tally: Tally, desired: set<Key>)

  /** The reference effect of one skill on the running state. */
  ghost function ProcessedOne(ctx: Ctx, apply: bool, s: State, k: Key, want: Wanted): State
    requires ctx.Valid() && (want.latest.None? ==> k in s.world.lock)
  {
    State(if apply then ApplyOne(ctx, s.world, k, want) else s.world,
          CountOne(ctx, s.world, s.tally, k, want.tree),
          s.desired + {k})
  }

  ghost predicate TasksServable(lock: Lock, source: Source, tasks: seq<Task>) {
    forall i :: 0 <= i < |tasks| && tasks[i].want.latest.None? ==> Key(source, tasks[i].name) in lock
  }

  /** One skill after the other, each judged by what the ones before it left. */
  ghost function ProcessAll(ctx: Ctx, apply: bool, s: State, source: Source, tasks: seq<Task>): (r: State)
    requires ctx.Valid() && TasksServable(s.world.lock, source, tasks)
    ensures s.world.lock.Keys <= r.world.lock.Keys
    decreases |tasks|
  {
    if tasks == [] then s
    else
      var n := |tasks| - 1;
      ProcessedOne(ctx, apply, ProcessAll(ctx, apply, s, source, tasks[..n]), Key(source, tasks[n].name), tasks[n].want)
  }

  lemma {:induction false} ListTasksAreLatest(items: seq<Selector>, f: Fetched)
    requires f.Fetched?
    ensures forall i :: 0 <= i < |ListTasks(items, f)| ==> ListTasks(items, f)[i].want.latest.Some?
  {
    hide Resolve;
    if items != [] { ListTasksAreLatest(items[..|items| - 1], f); }
  }

  lemma FetchTasksAreLatest(src: SourceSpec, f: Fetched)
    requires f.Fetched?
    ensures forall i :: 0 <= i < |FetchTasks(src, f)| ==> FetchTasks(src, f)[i].want.latest.Some?
  {
    if src.skills.List? { ListTasksAreLatest(src.skills.items, f); }
  }

  /** The task asks for the tree that is locked. */
  ghost predicate AsLocked(lock: Lock, source: Source, t: Task) {
    t.want.latest.None? && Key(source, t.name) in lock && lock[Key(source, t.name)].hash == Sha(t.want.tree)
  }

  lemma {:induction false} LockTasksAreLocked(lock: Lock, source: Source, names: seq<Name>)
    ensures forall i :: 0 <= i < |LockTasks(lock, source, names)| ==> AsLocked(lock, source, LockTasks(lock, source, names)[i])
  {
    if names != [] { LockTasksAreLocked(lock, source, names[..|names| - 1]); }
  }

  lemma TasksAreServable(ctx: Ctx, w: World, src: SourceSpec)
    requires !SourceFails(ctx, w, src)
    ensures TasksServable(w.lock, src.source, Tasks(ctx, w, src))
  {
    hide Fetches, FetchTasks, LockTasks, NameSeq;
    if Fetches(ctx, w, src) {
      FetchTasksAreLatest(src, ctx.fetch(src));
    } else {
      LockTasksAreLocked(w.lock, src.source, NameSeq(w.lock, src));
    }
  }

  /** What a source adds to the broken references. */
  ghost function WithBroken(ctx: Ctx, w: World, s: State, src: SourceSpec): State
    requires !SourceFails(ctx, w, src)
  {
    if Fetches(ctx, w, src) then s.(tally := s.tally.(broken := s.tally.broken + Broken(src, ctx.fetch(src)))) else s
  }

  /** One source; a preview (`apply` false) counts the same but leaves the world alone. */
  ghost function StepSource(ctx: Ctx, apply: bool, s: State, src: SourceSpec): State
    requires ctx.Valid()
  {
    if SourceFails(ctx, s.world, src) then s.(tally := s.tally.(failed := s.tally.failed + 1))
    else
      TasksAreServable(ctx, s.world, src);
      ProcessAll(ctx, apply, WithBroken(ctx, s.world, s, src), src.source, Tasks(ctx, s.world, src))
  }

  // ---------------------------------------------------------- the whole run

  ghost function RunSources(ctx: Ctx, apply: bool, s: State, n: nat): State
    requires ctx.Valid() && n <= |ctx.sources|
  {
    if n == 0 then s else StepSource(ctx, apply, RunSources(ctx, apply, s, n - 1), ctx.sources[n - 1])
  }

  ghost function Stale(s: State): set<Key> {
    s.world.lock.Keys - s.desired
  }

  /** Entries nobody asked for are dropped, with the directory the lock recorded for them. */
  ghost function Prune(apply: bool, s: State): State {
    if s.tally.failed > 0 then s
    else
      var t := s.tally.(removed := s.tally.removed + |Stale(s)|);
      State(if apply then PruneWorld(s) else s.world, t, s.desired)
  }

  ghost function PruneWorld(s: State): World {
    World(s.world.lock - Stale(s), s.world.disk - (set k | k in Stale(s) :: s.world.lock[k].destination))
  }

  const ZERO := Tally(0, 0, 0, 0, 0, 0)

  ghost function Start(w: World): State { State(w, ZERO, {}) }

  ghost function SyncSkills(ctx: Ctx, apply: bool, w: World): State
    requires ctx.Valid()
  {
    Prune(apply, RunSources(ctx, apply, Start(w), |ctx.sources|))
  }

  // ------------------------------------------------------------ assumptions

  /** Entries sit under their own key and were installed under their own name. */
  ghost predicate WellKeyed(lock: Lock) {
    forall k :: k in lock ==> lock[k].source == k.source && lock[k].skill == k.skill && lock[k].destination.name == k.skill
  }

  /** Every name this source can bring up, from the lock or from a fetch. */
  ghost function Names(ctx: Ctx, w: World, src: SourceSpec): set<Name> {
    DesiredNames(w.lock, src)
    + if src.skills.Wildcard? && ctx.fetch(src).Fetched? then ctx.fetch(src).available.Keys else {}
  }

  ghost predicate Involved(ctx: Ctx, w: World, k: Key) {
    k in w.lock || exists i :: 0 <= i < |ctx.sources| && BroughtUp(ctx, w, ctx.sources[i], k)
  }

  ghost predicate BroughtUp(ctx: Ctx, w: World, src: SourceSpec, k: Key) {
    k.source == src.source && k.skill in Names(ctx, w, src)
  }

  /** No two configured or locked skills share a name. */
  ghost predicate NamesOnce(ctx: Ctx, w: World) {
    forall k1, k2 :: Involved(ctx, w, k1) && Involved(ctx, w, k2) && k1.skill == k2.skill ==> k1 == k2
  }

  /** An entry covers the skills it lists, or with a wildcard every skill of its source. */
  ghost predicate Covers(src: SourceSpec, k: Key) {
    k.source == src.source && (src.skills.Wildcard? || k.skill in ListNames(src.skills.items))
  }

  ghost predicate TidySource(src: SourceSpec) {
    src.skills.List? ==> NoDupNames(src.skills.items)
  }

  /** No skill is covered twice: no list names a skill twice, entries that share a source string list different
      skills, and a wildcard shares its source string with no entry that asks for anything. */
  ghost predicate NoKeyTwice(sources: seq<SourceSpec>) {
    && (forall i :: 0 <= i < |sources| ==> TidySource(sources[i]))
    && (forall i, j, k :: 0 <= i < j < |sources| && Covers(sources[i], k) ==> !Covers(sources[j], k))
  }

  ghost predicate Distinct(ctx: Ctx, w: World) { NoKeyTwice(ctx.sources) && NamesOnce(ctx, w) }

  lemma NamesAreCovered(ctx: Ctx, w: World, src: SourceSpec, n: Name)
    requires n in Names(ctx, w, src)
    ensures Covers(src, Key(src.source, n))
  {
  }

  lemma NameIsInvolved(ctx: Ctx, w: World, i: nat, n: Name)
    requires i < |ctx.sources| && n in Names(ctx, w, ctx.sources[i])
    ensures Involved(ctx, w, Key(ctx.sources[i].source, n))
  {
    hide Names;
    assert BroughtUp(ctx, w, ctx.sources[i], Key(ctx.sources[i].source, n));
  }

  ghost predicate SameAt<K, V>(a: map<K, V>, b: map<K, V>, x: K) {
    (x in a <==> x in b) && (x in a ==> a[x] == b[x])
  }

  // --------------------------------------------------------- lock and disk in step

  /** Everything asked for so far is locked, and in every destination with the locked hash. */
  ghost predicate InStep(ctx: Ctx, s: State) {
    && s.desired <= s.world.lock.Keys
    && forall k, d :: k in s.desired && d in ctx.dests ==> Matches(s.world.disk, d, k.skill, s.world.lock[k].hash)
  }

  ghost predicate SoundInv(ctx: Ctx, w0: World, s: State) {
    WellKeyed(s.world.lock) && InStep(ctx, s) && forall k :: k in s.world.lock ==> Involved(ctx, w0, k)
  }

  lemma ApplyOneAt(ctx: Ctx, w: World, k0: Key, want: Wanted, k: Key, p: Path)
    requires ctx.Valid() && (want.latest.None? ==> k0 in w.lock)
    ensures var w' := ApplyOne(ctx, w, k0, want);
      && (if k == k0 then k in w'.lock && w'.lock[k] == EntryAfter(ctx, w, k, want) else SameAt(w.lock, w'.lock, k))
      && (if p.dest in ctx.dests && p.name == k0.skill then p in w'.disk && w'.disk[p] == want.tree
          else SameAt(w.disk, w'.disk, p))
  {
    hide EntryAfter;
  }

  lemma EntryFits(ctx: Ctx, w: World, k: Key, want: Wanted)
    requires ctx.Valid() && WellKeyed(w.lock)
    requires want.latest.None? ==> k in w.lock && w.lock[k].hash == Sha(want.tree)
    ensures var e := EntryAfter(ctx, w, k, want);
      e.hash == Sha(want.tree) && e.source == k.source && e.skill == k.skill && e.destination.name == k.skill
    ensures want.latest.None? ==> EntryAfter(ctx, w, k, want) == w.lock[k]
  {
  }

  lemma OneKeepsSound(ctx: Ctx, w0: World, s: State, k: Key, want: Wanted)
    requires ctx.Valid() && NamesOnce(ctx, w0) && SoundInv(ctx, w0, s) && Involved(ctx, w0, k)
    requires want.latest.None? ==> k in s.world.lock && s.world.lock[k].hash == Sha(want.tree)
    ensures SoundInv(ctx, w0, ProcessedOne(ctx, true, s, k, want))
    ensures want.latest.None? ==> ProcessedOne(ctx, true, s, k, want).world.lock == s.world.lock
  {
    hide Involved, EntryAfter, ApplyOne, CountOne;
    var s' := ProcessedOne(ctx, true, s, k, want);
    EntryFits(ctx, s.world, k, want);
    forall x ensures if x == k then x in s'.world.lock && s'.world.lock[x] == EntryAfter(ctx, s.world, k, want)
                     else SameAt(s.world.lock, s'.world.lock, x) {
      ApplyOneAt(ctx, s.world, k, want, x, Path(ctx.dests[0], x.skill));
    }
    forall x, d | x in s'.desired && d in ctx.dests ensures Matches(s'.world.disk, d, x.skill, s'.world.lock[x].hash) {
      ApplyOneAt(ctx, s.world, k, want, x, Path(d, x.skill));
      if x != k {
        assert Involved(ctx, w0, x);
        assert Matches(s.world.disk, d, x.skill, s.world.lock[x].hash);
      }
    }
    if want.latest.None? {
      SameMaps(s'.world.lock, s.world.lock);
    }
  }

  lemma SameMaps<K(!new), V>(a: map<K, V>, b: map<K, V>)
    requires forall x :: SameAt(a, b, x)
    ensures a == b
  {
    assert forall x :: x in a ==> SameAt(a, b, x);
    assert forall x :: x in b ==> SameAt(a, b, x);
    assert a.Keys == b.Keys;
  }

  /** All from a fetch, or all as locked. */
  ghost predicate OneKind(lock: Lock, source: Source, tasks: seq<Task>) {
    || (forall i :: 0 <= i < |tasks| ==> tasks[i].want.latest.Some?)
    || (forall i :: 0 <= i < |tasks| ==> AsLocked(lock, source, tasks[i]))
  }

  lemma OneKindOfTask(ctx: Ctx, w: World, src: SourceSpec)
    requires !SourceFails(ctx, w, src)
    ensures OneKind(w.lock, src.source, Tasks(ctx, w, src))
  {
    hide Fetches, FetchTasks, LockTasks, NameSeq;
    if Fetches(ctx, w, src) {
      FetchTasksAreLatest(src, ctx.fetch(src));
    } else {
      LockTasksAreLocked(w.lock, src.source, NameSeq(w.lock, src));
    }
  }

  lemma {:induction false} AllKeepSound(ctx: Ctx, w0: World, s: State, source: Source, tasks: seq<Task>)
    requires ctx.Valid() && NamesOnce(ctx, w0) && SoundInv(ctx, w0, s) && OneKind(s.world.lock, source, tasks)
    requires TasksServable(s.world.lock, source, tasks)
    requires forall i :: 0 <= i < |tasks| ==> Involved(ctx, w0, Key(source, tasks[i].name))
    ensures var r := ProcessAll(ctx, true, s, source, tasks);
      && SoundInv(ctx, w0, r) && r.tally.failed == s.tally.failed
      && ((exists i :: 0 <= i < |tasks| && tasks[i].want.latest.None?) ==> r.world.lock == s.world.lock)
    decreases |tasks|
  {
    hide Involved, NamesOnce, SoundInv, ApplyOne;
    if tasks != [] {
      var n := |tasks| - 1;
      assert OneKind(s.world.lock, source, tasks[..n]);
      AllKeepSound(ctx, w0, s, source, tasks[..n]);
      if tasks[n].want.latest.None? && n > 0 { assert tasks[..n][0].want.latest.None?; }
      var part := ProcessAll(ctx, true, s, source, tasks[..n]);
      if tasks[n].want.latest.None? { assert AsLocked(s.world.lock, source, tasks[n]); }
      OneKeepsSound(ctx, w0, part, Key(source, tasks[n].name), tasks[n].want);
    }
  }

  lemma {:induction false} ListTaskIsListed(items: seq<Selector>, f: Fetched, t: Task)
    requires f.Fetched? && t in ListTasks(items, f)
    ensures exists s :: s in items && Resolve(f, s).Some? && t == Task(s.name, Latest(Resolve(f, s).value, f))
  {
    hide Resolve;
    var last := items[|items| - 1];
    if t in ListTasks(items[..|items| - 1], f) {
      ListTaskIsListed(items[..|items| - 1], f, t);
    } else {
      assert last in items && t.name == last.name;
    }
  }

  lemma {:induction false} LockTaskIsNamed(lock: Lock, source: Source, names: seq<Name>, t: Task)
    requires t in LockTasks(lock, source, names)
    ensures t.name in names && Key(source, t.name) in lock && t.want == Wanted(lock[Key(source, t.name)].hash.of, None)
  {
    if t in LockTasks(lock, source, names[..|names| - 1]) {
      LockTaskIsNamed(lock, source, names[..|names| - 1], t);
    }
  }

  lemma TaskIsNamed(ctx: Ctx, w: World, src: SourceSpec, t: Task)
    requires !SourceFails(ctx, w, src) && t in Tasks(ctx, w, src)
    ensures t.name in Names(ctx, w, src)
  {
    if Fetches(ctx, w, src) {
      if src.skills.List? {
        ListTaskIsListed(src.skills.items, ctx.fetch(src), t);
      } else {
        ListedIsIn(ctx.fetch(src).available.Keys);
      }
    } else {
      LockTaskIsNamed(w.lock, src.source, NameSeq(w.lock, src), t);
      if src.skills.List? {
        assert exists i :: 0 <= i < |src.skills.items| && src.skills.items[i].name == t.name;
      } else {
        ListedIsIn(DesiredNames(w.lock, src));
      }
    }
  }

  lemma ListedIsIn(names: set<Name>)
    ensures forall n :: n in Listing(names) <==> n in names
  {
    assert forall n :: n in Listing(names) <==> n in ToSet(Listing(names));
  }

  /** A later look at the lock brings up no key that was not involved from the start. */
  lemma TaskIsInvolved(ctx: Ctx, w0: World, w: World, i: nat, t: Task)
    requires i < |ctx.sources| && !SourceFails(ctx, w, ctx.sources[i]) && t in Tasks(ctx, w, ctx.sources[i])
    requires WellKeyed(w.lock) && forall k :: k in w.lock ==> Involved(ctx, w0, k)
    ensures Involved(ctx, w0, Key(ctx.sources[i].source, t.name))
  {
    hide Involved, SourceFails, Tasks;
    var src := ctx.sources[i];
    TaskIsNamed(ctx, w, src, t);
    if Key(src.source, t.name) !in w.lock {
      assert t.name in Names(ctx, w0, src);
      NameIsInvolved(ctx, w0, i, t.name);
    }
  }

  lemma StepKeepsSound(ctx: Ctx, w0: World, s: State, i: nat)
    requires ctx.Valid() && NamesOnce(ctx, w0) && i < |ctx.sources| && SoundInv(ctx, w0, s)
    ensures SoundInv(ctx, w0, StepSource(ctx, true, s, ctx.sources[i]))
  {
    hide Involved, NamesOnce, SourceFails, Tasks, ProcessAll, Fetches, OneKind, Broken;
    var src := ctx.sources[i];
    if !SourceFails(ctx, s.world, src) {
      var tasks := Tasks(ctx, s.world, src);
      TasksAreServable(ctx, s.world, src);
      OneKindOfTask(ctx, s.world, src);
      forall j | 0 <= j < |tasks| ensures Involved(ctx, w0, Key(src.source, tasks[j].name)) {
        TaskIsInvolved(ctx, w0, s.world, i, tasks[j]);
      }
      AllKeepSound(ctx, w0, WithBroken(ctx, s.world, s, src), src.source, tasks);
    }
  }

  lemma {:induction false} RunKeepsSound(ctx: Ctx, w: World, i: nat)
    requires ctx.Valid() && NamesOnce(ctx, w) && WellKeyed(w.lock) && i <= |ctx.sources|
    ensures SoundInv(ctx, w, RunSources(ctx, true, Start(w), i))
  {
    hide WellKeyed, StepSource, NamesOnce;
    if i > 0 {
      RunKeepsSound(ctx, w, i - 1);
      StepKeepsSound(ctx, w, RunSources(ctx, true, Start(w), i - 1), i - 1);
    }
  }

  /** What the prune must not meet: a stale entry whose recorded directory is one of an asked-for skill. */
  ghost predicate StaleSharesPath(ctx: Ctx, s: State) {
    exists o, k, d :: o in Stale(s) && k in s.desired && d in ctx.dests && s.world.lock[o].destination == Path(d, k.skill)
  }

  /** With lock and disk in step before it, the prune leaves them in step exactly when no stale entry's
      directory is one of an asked-for skill, as it is when a skill has moved to another source. */
  lemma PruneSparesExactly(ctx: Ctx, s: State)
    requires InStep(ctx, s) && s.tally.failed == 0
    ensures InStep(ctx, Prune(true, s)) <==> !StaleSharesPath(ctx, s)
  {
    var w' := PruneWorld(s);
    var gone := set o | o in Stale(s) :: s.world.lock[o].destination;
    if StaleSharesPath(ctx, s) {
      var o, k, d :| o in Stale(s) && k in s.desired && d in ctx.dests && s.world.lock[o].destination == Path(d, k.skill);
      assert Path(d, k.skill) in gone && Path(d, k.skill) !in w'.disk;
      assert k in w'.lock && !Matches(w'.disk, d, k.skill, w'.lock[k].hash);
    } else {
      forall k, d | k in s.desired && d in ctx.dests ensures Matches(w'.disk, d, k.skill, w'.lock[k].hash) {
        assert Matches(s.world.disk, d, k.skill, s.world.lock[k].hash);
        assert Path(d, k.skill) !in gone;
      }
    }
  }

  /** Where no two skills share a name, no stale entry's directory is asked for. */
  lemma NoStalePath(ctx: Ctx, w: World, s: State)
    requires ctx.Valid() && NamesOnce(ctx, w) && SoundInv(ctx, w, s)
    ensures !StaleSharesPath(ctx, s)
  {
    hide Involved, Matches;
    forall o, k, d | o in Stale(s) && k in s.desired && d in ctx.dests
      ensures s.world.lock[o].destination != Path(d, k.skill) {
      assert Involved(ctx, w, o) && Involved(ctx, w, k);
    }
  }

  lemma LockedIsDesired(s: State)
    requires s.desired <= s.world.lock.Keys && s.tally.failed == 0
    ensures Prune(true, s).world.lock.Keys == s.desired
  {
  }

  lemma SoundIsInStep(ctx: Ctx, w: World, s: State)
    requires SoundInv(ctx, w, s)
    ensures InStep(ctx, s)
  {
    hide InStep;
  }

  /** Lock and disk tell the same story, however often the config lists a source: the locked keys are exactly
      the desired ones, and every destination holds, under each locked skill's name, a tree with the locked hash. */
  lemma SyncIsSound(ctx: Ctx, w: World)
    requires ctx.Valid() && NamesOnce(ctx, w) && WellKeyed(w.lock)
    requires SyncSkills(ctx, true, w).tally.failed == 0
    ensures var r := SyncSkills(ctx, true, w);
      && r.world.lock.Keys == r.desired
      && forall k, d :: k in r.world.lock && d in ctx.dests ==> Matches(r.world.disk, d, k.skill, r.world.lock[k].hash)
  {
    hide SoundInv, NamesOnce, WellKeyed, RunSources, PruneWorld, Matches;
    RunKeepsSound(ctx, w, |ctx.sources|);
    var s := RunSources(ctx, true, Start(w), |ctx.sources|);
    SoundIsInStep(ctx, w, s);
    NoStalePath(ctx, w, s);
    PruneSparesExactly(ctx, s);
    LockedIsDesired(s);
  }
}
