/** Which configs a sync keeps its promises for: those in which no skill is covered twice. */
module SkillConfigs {
  import opened Collections
  import opened SkillSync
  import opened SkillAtOnce
  import opened SkillRest

  // ---------------------------------------------------------------- coverings

  /** One way a config asks for a skill: an entry, and the path its selector gives. */
  datatype Cover = Cover(src: SourceSpec, path: Option<SubPath>)

  ghost function ListCovers(src: SourceSpec, items: seq<Selector>, n: Name): seq<Cover> {
    if items == [] then []
    else
      var last := items[|items| - 1];
      ListCovers(src, items[..|items| - 1], n) + if last.name == n then [Cover(src, PathOf(last))] else []
  }

  /** How often, and how, an entry covers a skill: once for each time its list names it. */
  ghost function CoversOf(src: SourceSpec, k: Key): seq<Cover> {
    if src.source != k.source then []
    else match src.skills
      case Wildcard(_) => [Cover(src, None)]
      case List(items) => ListCovers(src, items, k.skill)
  }

  ghost function Coverings(sources: seq<SourceSpec>, k: Key, i: nat): seq<Cover>
    requires i <= |sources|
  {
    if i == 0 then [] else Coverings(sources, k, i - 1) + CoversOf(sources[i - 1], k)
  }

  lemma {:induction false} ListCoversSome(src: SourceSpec, items: seq<Selector>, n: Name)
    ensures n in ListNames(items) <==> ListCovers(src, items, n) != []
  {
    if items != [] {
      var m := |items| - 1;
      ListCoversSome(src, items[..m], n);
      assert items == items[..m] + [items[m]];
      assert ListNames(items) == ListNames(items[..m]) + {items[m].name};
    }
  }

  lemma CoversSome(src: SourceSpec, k: Key)
    ensures Covers(src, k) <==> CoversOf(src, k) != []
  {
    if src.skills.List? { ListCoversSome(src, src.skills.items, k.skill); }
  }

  lemma {:induction false} ListedTwice(src: SourceSpec, items: seq<Selector>, i: nat, j: nat)
    requires i < j < |items| && items[i].name == items[j].name
    ensures |ListCovers(src, items, items[i].name)| >= 2
  {
    var m, n := |items| - 1, items[i].name;
    if j < m {
      assert items[..m][i] == items[i] && items[..m][j] == items[j];
      ListedTwice(src, items[..m], i, j);
    } else {
      assert items[i] == items[..m][i] && items[..m][i] in items[..m];
      assert n in ListNames(items[..m]);
      ListCoversSome(src, items[..m], n);
    }
  }

  lemma {:induction false} CoveringsGrow(sources: seq<SourceSpec>, k: Key, i: nat, j: nat)
    requires i <= j <= |sources|
    ensures |Coverings(sources, k, i)| <= |Coverings(sources, k, j)|
  {
    hide CoversOf;
    if i < j { CoveringsGrow(sources, k, i, j - 1); }
  }

  lemma CoveredTwice(sources: seq<SourceSpec>, k: Key, i: nat, j: nat)
    requires i < j < |sources| && Covers(sources[i], k) && Covers(sources[j], k)
    ensures |Coverings(sources, k, |sources|)| >= 2
  {
    hide Covers, CoversOf;
    CoversSome(sources[i], k);
    CoversSome(sources[j], k);
    CoveringsGrow(sources, k, i + 1, j);
    CoveringsGrow(sources, k, j + 1, |sources|);
  }

  lemma CoveredTwiceByOne(sources: seq<SourceSpec>, k: Key, i: nat)
    requires i < |sources| && |CoversOf(sources[i], k)| >= 2
    ensures |Coverings(sources, k, |sources|)| >= 2
  {
    hide CoversOf;
    CoveringsGrow(sources, k, i + 1, |sources|);
  }

  /** Entries of different sources list different names. */
  ghost predicate ListedOnce(sources: seq<SourceSpec>) {
    forall i, j, n :: 0 <= i < |sources| && 0 <= j < |sources| && Lists(sources[i], n) && Lists(sources[j], n) ==>
      sources[i].source == sources[j].source
  }

  ghost predicate Lists(src: SourceSpec, n: Name) {
    src.skills.List? && n in ListNames(src.skills.items)
  }

  /** `k` is listed under its own source only, if at all. */
  ghost predicate ListedUnder(sources: seq<SourceSpec>, k: Key) {
    forall i :: 0 <= i < |sources| && Lists(sources[i], k.skill) ==> sources[i].source == k.source
  }

  /** A key that is covered twice, and that no entry of another source lists. */
  lemma SharedKey(sources: seq<SourceSpec>, spare: Name) returns (k: Key)
    requires !NoKeyTwice(sources) && ListedOnce(sources) && forall l :: 0 <= l < |sources| ==> !Lists(sources[l], spare)
    ensures |Coverings(sources, k, |sources|)| >= 2 && ListedUnder(sources, k)
  {
    hide Coverings, CoversOf;
    if AllTidy(sources) {
      var i, j;
      i, j, k :| 0 <= i < j < |sources| && Covers(sources[i], k) && Covers(sources[j], k);
      if sources[i].skills.Wildcard? && sources[j].skills.Wildcard? {
        k := Key(k.source, spare);
      } else {
        var l := if sources[i].skills.List? then i else j;
        assert Lists(sources[l], k.skill);
      }
      CoveredTwice(sources, k, i, j);
    } else {
      var i :| 0 <= i < |sources| && !TidySource(sources[i]);
      var items := sources[i].skills.items;
      var a, b :| 0 <= a < b < |items| && items[a].name == items[b].name;
      k := Key(sources[i].source, items[a].name);
      TwiceInList(sources[i], items, a, b, k);
      assert items[a] in items;
      assert Lists(sources[i], k.skill);
      CoveredTwiceByOne(sources, k, i);
    }
  }

  lemma TwiceInList(src: SourceSpec, items: seq<Selector>, a: nat, b: nat, k: Key)
    requires src.skills == List(items) && a < b < |items| && items[a].name == items[b].name && k == Key(src.source, items[a].name)
    ensures |CoversOf(src, k)| >= 2
  {
    ListedTwice(src, items, a, b);
  }

  // ------------------------------------------------------- the failing family

  /** One skill, the only one its source offers, with the tree that each covering finds there. */
  datatype Offer = Offer(key: Key, tree: Cover -> Tree, text: Text, rev: Label)

  ghost function Offered(o: Offer, src: SourceSpec): Fetched {
    if src.source != o.key.source then Fetched(o.rev, map[], map[])
    else Fetched(o.rev, map[o.key.skill := Item(o.tree(Cover(src, None)), o.text)], LocatedAt(o, src))
  }

  /** The skill found under every path the entry's selectors name it with. */
  ghost function LocatedAt(o: Offer, src: SourceSpec): map<(SubPath, Name), Item> {
    match src.skills
    case Wildcard(_) => map[]
    case List(items) =>
      map q | q in PathsTo(items, o.key.skill) :: Item(o.tree(Cover(src, Some(q.0))), o.text)
  }

  ghost function PathsTo(items: seq<Selector>, n: Name): set<(SubPath, Name)> {
    set s | s in items && s.name == n && PathOf(s).Some? :: (PathOf(s).value, n)
  }

  /** Not `--locked`, and sources that all offer just the one skill. */
  ghost predicate Offers(ctx: Ctx, o: Offer) {
    ctx.dests != [] && !ctx.locked && forall src :: ctx.fetch(src) == Offered(o, src)
  }

  /** The wildcard field is either absent or `*`. */
  ghost predicate ValidFields(sources: seq<SourceSpec>) {
    forall i :: 0 <= i < |sources| ==> sources[i].skills != Wildcard(false)
  }

  /** The tasks for these coverings of the offered skill. */
  ghost function TasksFor(o: Offer, covers: seq<Cover>): seq<Task> {
    seq(|covers|, i requires 0 <= i < |covers| => Task(o.key.skill, Wanted(o.tree(covers[i]), Some((o.text, o.rev)))))
  }

  lemma OfferResolves(o: Offer, src: SourceSpec, items: seq<Selector>, s: Selector)
    requires src.skills == List(items) && s in items
    ensures Offered(o, src).Fetched?
    ensures Resolve(Offered(o, src), s) ==
      if src.source == o.key.source && s.name == o.key.skill then Some(Item(o.tree(Cover(src, PathOf(s))), o.text)) else None
  {
    if src.source == o.key.source && s.name == o.key.skill && PathOf(s).Some? {
      assert (PathOf(s).value, s.name) in PathsTo(items, o.key.skill);
    }
  }

  lemma {:induction false} OfferListed(o: Offer, src: SourceSpec, items: seq<Selector>, i: nat)
    requires src.skills == List(items) && i <= |items| && src.source == o.key.source
    ensures ListTasks(items[..i], Offered(o, src)) == TasksFor(o, ListCovers(src, items[..i], o.key.skill))
  {
    hide Resolve, LocatedAt;
    if i > 0 {
      OfferListed(o, src, items, i - 1);
      assert items[..i][..i - 1] == items[..i - 1] && items[..i][i - 1] == items[i - 1];
      OfferResolves(o, src, items, items[i - 1]);
    }
  }

  lemma {:induction false} OfferElsewhere(o: Offer, src: SourceSpec, items: seq<Selector>, i: nat)
    requires src.skills == List(items) && i <= |items| && src.source != o.key.source
    ensures ListTasks(items[..i], Offered(o, src)) == []
  {
    hide Resolve, LocatedAt;
    if i > 0 {
      OfferElsewhere(o, src, items, i - 1);
      assert items[..i][..i - 1] == items[..i - 1] && items[..i][i - 1] == items[i - 1];
      OfferResolves(o, src, items, items[i - 1]);
    }
  }

  lemma OfferStarred(o: Offer, src: SourceSpec)
    requires src.skills.Wildcard?
    ensures FetchTasks(src, Offered(o, src)) == TasksFor(o, CoversOf(src, o.key))
  {
    var f := Offered(o, src);
    var names := Listing(f.available.Keys);
    ListedIsIn(f.available.Keys);
    if src.source == o.key.source {
      assert f.available.Keys == {o.key.skill};
      OneName(names, o.key.skill);
    } else {
      assert f.available.Keys == {};
      assert names == [];
    }
  }

  lemma OneName(names: seq<Name>, n: Name)
    requires NoDup(names) && ToSet(names) == {n}
    ensures names == [n]
  {
    assert n in ToSet(names);
    assert forall i :: 0 <= i < |names| ==> names[i] in ToSet(names);
    NoDupCardinality(names);
  }

  /** Fetched, an entry brings one task for each covering. */
  lemma FetchedCovers(ctx: Ctx, o: Offer, w: World, src: SourceSpec)
    requires Offers(ctx, o) && src.skills != Wildcard(false)
    ensures !SourceFails(ctx, w, src)
    ensures Fetches(ctx, w, src) ==> Tasks(ctx, w, src) == TasksFor(o, CoversOf(src, o.key))
  {
    hide Fetches, LocatedAt, FetchTasks;
    assert ctx.fetch(src) == Offered(o, src);
    if src.skills.List? {
      var items := src.skills.items;
      assert items[..|items|] == items;
      if src.source == o.key.source { OfferListed(o, src, items, |items|); } else { OfferElsewhere(o, src, items, |items|); }
      ListFetchTasks(src, Offered(o, src));
    } else {
      OfferStarred(o, src);
    }
  }

  lemma ListFetchTasks(src: SourceSpec, f: Fetched)
    requires f.Fetched? && src.skills.List?
    ensures FetchTasks(src, f) == ListTasks(src.skills.items, f)
  {
  }

  // ----------------------------------------------------- the preview's counts

  const NOWHERE := World(map[], map[])

  /** With an empty lock, an entry that asks for anything is fetched. */
  lemma NothingLockedTasks(ctx: Ctx, o: Offer, src: SourceSpec)
    requires Offers(ctx, o) && src.skills != Wildcard(false)
    ensures !SourceFails(ctx, NOWHERE, src) && Tasks(ctx, NOWHERE, src) == TasksFor(o, CoversOf(src, o.key))
  {
    FetchedCovers(ctx, o, NOWHERE, src);
    if !Fetches(ctx, NOWHERE, src) {
      assert !NeedsFetch(ctx, NOWHERE, src);
      forall n ensures n !in DesiredNames(NOWHERE.lock, src) {
        if n in DesiredNames(NOWHERE.lock, src) { assert Unservable(ctx, NOWHERE, src, n); }
      }
      CoversSome(src, o.key);
      assert src.skills.List? && ListNames(src.skills.items) == {};
      NoItems(src.skills.items);
    }
  }

  lemma NoItems(items: seq<Selector>)
    ensures items != [] ==> ListNames(items) != {}
  {
    if items != [] {
      assert items[0] in items;
      assert items[0].name in ListNames(items);
    }
  }

  lemma {:induction false} PreviewCounts(ctx: Ctx, o: Offer, s: State, tasks: seq<Task>)
    requires ctx.Valid() && s.world == NOWHERE && TasksServable(s.world.lock, o.key.source, tasks)
    ensures var r := ProcessAll(ctx, false, s, o.key.source, tasks);
      r.world == NOWHERE && r.tally.failed == s.tally.failed && r.tally.installed == s.tally.installed + |tasks|
    decreases |tasks|
  {
    if tasks != [] { PreviewCounts(ctx, o, s, tasks[..|tasks| - 1]); }
  }

  lemma PreviewStep(ctx: Ctx, o: Offer, s: State, src: SourceSpec)
    requires ctx.Valid() && Offers(ctx, o) && src.skills != Wildcard(false) && s.world == NOWHERE
    ensures var s' := StepSource(ctx, false, s, src);
      && s'.world == NOWHERE && s'.tally.failed == s.tally.failed
      && s'.tally.installed == s.tally.installed + |CoversOf(src, o.key)|
  {
    hide SourceFails, Tasks, Fetches, CoversOf, ProcessAll, Broken;
    NothingLockedTasks(ctx, o, src);
    TasksAreServable(ctx, NOWHERE, src);
    var tasks := Tasks(ctx, NOWHERE, src);
    if tasks == [] {
      NoTasks(ctx, false, WithBroken(ctx, NOWHERE, s, src), src.source);
    } else {
      CoversSome(src, o.key);
      PreviewCounts(ctx, o, WithBroken(ctx, NOWHERE, s, src), tasks);
    }
  }

  lemma NoTasks(ctx: Ctx, apply: bool, s: State, source: Source)
    requires ctx.Valid()
    ensures ProcessAll(ctx, apply, s, source, []) == s
  {
  }

  lemma {:induction false} PreviewInstalls(ctx: Ctx, o: Offer, i: nat)
    requires ctx.Valid() && Offers(ctx, o) && ValidFields(ctx.sources) && i <= |ctx.sources|
    ensures var s := RunSources(ctx, false, Start(NOWHERE), i);
      s.world == NOWHERE && s.tally.failed == 0 && s.tally.installed == |Coverings(ctx.sources, o.key, i)|
  {
    hide StepSource, Offers, CoversOf;
    if i > 0 {
      PreviewInstalls(ctx, o, i - 1);
      PreviewStep(ctx, o, RunSources(ctx, false, Start(NOWHERE), i - 1), ctx.sources[i - 1]);
    }
  }

  // ----------------------------------------------------- the applied run's counts

  /** Nothing but `k` is ever locked, and each installation locks a new key. */
  ghost predicate OnlyOne(k: Key, s: State) {
    s.world.lock.Keys <= {k} && s.tally.failed == 0 && s.tally.installed == |s.world.lock.Keys|
  }

  lemma OneKeepsOne(ctx: Ctx, s: State, k: Key, want: Wanted)
    requires ctx.Valid() && OnlyOne(k, s) && (want.latest.None? ==> k in s.world.lock)
    ensures OnlyOne(k, ProcessedOne(ctx, true, s, k, want))
  {
    hide EntryAfter, AllMatch;
    var s' := ProcessedOne(ctx, true, s, k, want);
    if k in s.world.lock {
      assert s.world.lock.Keys == {k} && s'.world.lock.Keys == {k};
    } else {
      assert s.world.lock.Keys == {} && s'.world.lock.Keys == {k};
    }
  }

  lemma {:induction false} AllKeepOne(ctx: Ctx, s: State, k: Key, tasks: seq<Task>)
    requires ctx.Valid() && OnlyOne(k, s) && TasksServable(s.world.lock, k.source, tasks)
    requires forall i :: 0 <= i < |tasks| ==> tasks[i].name == k.skill
    ensures OnlyOne(k, ProcessAll(ctx, true, s, k.source, tasks))
    decreases |tasks|
  {
    hide OnlyOne, ProcessedOne;
    if tasks != [] {
      var n := |tasks| - 1;
      AllKeepOne(ctx, s, k, tasks[..n]);
      OneKeepsOne(ctx, ProcessAll(ctx, true, s, k.source, tasks[..n]), k, tasks[n].want);
    }
  }

  /** Whatever an entry has to do, it is about the offered skill. */
  lemma OnlyKeyAsked(ctx: Ctx, o: Offer, w: World, src: SourceSpec)
    requires Offers(ctx, o) && src.skills != Wildcard(false) && w.lock.Keys <= {o.key}
    ensures !SourceFails(ctx, w, src)
    ensures Tasks(ctx, w, src) != [] ==> src.source == o.key.source
    ensures forall i :: 0 <= i < |Tasks(ctx, w, src)| ==> Tasks(ctx, w, src)[i].name == o.key.skill
  {
    hide LocatedAt, CoversOf, NameSeq;
    FetchedCovers(ctx, o, w, src);
    CoversSome(src, o.key);
    if !Fetches(ctx, w, src) {
      var tasks := Tasks(ctx, w, src);
      forall i | 0 <= i < |tasks| ensures Key(src.source, tasks[i].name) == o.key {
        LockTaskIsNamed(w.lock, src.source, NameSeq(w.lock, src), tasks[i]);
      }
      if tasks != [] { assert Key(src.source, tasks[0].name) == o.key; }
    }
  }

  lemma StepKeepsOne(ctx: Ctx, o: Offer, s: State, src: SourceSpec)
    requires ctx.Valid() && Offers(ctx, o) && src.skills != Wildcard(false) && OnlyOne(o.key, s)
    ensures OnlyOne(o.key, StepSource(ctx, true, s, src))
  {
    hide SourceFails, Tasks, Fetches, Offers, ProcessAll, Broken;
    OnlyKeyAsked(ctx, o, s.world, src);
    TasksAreServable(ctx, s.world, src);
    if Tasks(ctx, s.world, src) == [] {
      NoTasks(ctx, true, WithBroken(ctx, s.world, s, src), src.source);
    } else {
      AllKeepOne(ctx, WithBroken(ctx, s.world, s, src), o.key, Tasks(ctx, s.world, src));
    }
  }

  lemma {:induction false} AppliedKeepsOne(ctx: Ctx, o: Offer, s: State, i: nat)
    requires ctx.Valid() && Offers(ctx, o) && ValidFields(ctx.sources) && i <= |ctx.sources| && OnlyOne(o.key, s)
    ensures OnlyOne(o.key, RunSources(ctx, true, s, i))
  {
    hide Offers, StepSource, OnlyOne;
    if i > 0 {
      AppliedKeepsOne(ctx, o, s, i - 1);
      StepKeepsOne(ctx, o, RunSources(ctx, true, s, i - 1), ctx.sources[i - 1]);
    }
  }

  // -------------------------------------------------- when previews are truthful

  lemma OfferNamesOnce(ctx: Ctx, o: Offer)
    requires Offers(ctx, o) && ListedOnce(ctx.sources) && ListedUnder(ctx.sources, o.key)
    ensures NamesOnce(ctx, NOWHERE)
  {
    hide LocatedAt;
    forall x | Involved(ctx, NOWHERE, x)
      ensures x == o.key || exists i :: 0 <= i < |ctx.sources| && x.source == ctx.sources[i].source && Lists(ctx.sources[i], x.skill)
    {
      var i :| 0 <= i < |ctx.sources| && BroughtUp(ctx, NOWHERE, ctx.sources[i], x);
      assert ctx.fetch(ctx.sources[i]) == Offered(o, ctx.sources[i]);
    }
    hide Involved, Offers;
  }

  /** The preview of this config never tells other counts than the applied run. */
  ghost predicate Truthful(ctx: Ctx, w: World) {
    ctx.Valid() && WellKeyed(w.lock) && NamesOnce(ctx, w) ==> SyncSkills(ctx, false, w).tally == SyncSkills(ctx, true, w).tally
  }

  ghost predicate AlwaysTruthful(sources: seq<SourceSpec>) {
    forall ctx: Ctx, w: World :: ctx.sources == sources ==> Truthful(ctx, w)
  }

  lemma OverlapMisleads(ctx: Ctx, o: Offer)
    requires Offers(ctx, o) && ValidFields(ctx.sources)
    requires ListedOnce(ctx.sources) && ListedUnder(ctx.sources, o.key)
    requires |Coverings(ctx.sources, o.key, |ctx.sources|)| >= 2
    ensures !Truthful(ctx, NOWHERE)
  {
    hide RunSources, ListedOnce, NamesOnce, ValidFields, Stale, PruneWorld, Coverings;
    var n := |ctx.sources|;
    assert ctx.Valid();
    OfferNamesOnce(ctx, o);
    PreviewInstalls(ctx, o, n);
    AppliedKeepsOne(ctx, o, Start(NOWHERE), n);
    AtMostOne(RunSources(ctx, true, Start(NOWHERE), n).world.lock.Keys, o.key);
  }

  lemma AtMostOne<T>(s: set<T>, x: T)
    requires s <= {x}
    ensures |s| <= 1
  {
    if s != {} { assert s == {x}; }
  }

  /** Previews of a config are truthful in every world exactly when no skill is covered twice, be it by two
      entries or by one list. (`spare` is a name the config does not list.) */
  lemma PreviewTruthfulExactly(sources: seq<SourceSpec>, dest: Dest, spare: Name, tree: Tree, text: Text, rev: Label)
    requires ValidFields(sources) && ListedOnce(sources) && forall l :: 0 <= l < |sources| ==> !Lists(sources[l], spare)
    ensures AlwaysTruthful(sources) <==> NoKeyTwice(sources)
  {
    hide Truthful, NoKeyTwice, ListedOnce, Lists, ValidFields, Offered, Coverings;
    if NoKeyTwice(sources) {
      forall ctx: Ctx, w: World | ctx.sources == sources ensures Truthful(ctx, w) { TruthfulIfOnce(ctx, w); }
    } else {
      var k := SharedKey(sources, spare);
      var o := Offer(k, c => tree, text, rev);
      var ctx := Ctx(sources, src => Offered(o, src), [dest], false, {}, false);
      OverlapMisleads(ctx, o);
      assert !Truthful(ctx, NOWHERE);
    }
  }

  lemma TruthfulIfOnce(ctx: Ctx, w: World)
    requires NoKeyTwice(ctx.sources)
    ensures Truthful(ctx, w)
  {
    hide SyncSkills, NoKeyTwice, NamesOnce, WellKeyed;
    if ctx.Valid() && WellKeyed(w.lock) && NamesOnce(ctx, w) { PreviewIsTruthful(ctx, w); }
  }

  // ------------------------------------------------------- when syncs converge

  /** `k` is locked with this tree, and every destination has it; nothing else is locked. */
  ghost predicate Left(ctx: Ctx, k: Key, w: World, tree: Tree) {
    w.lock.Keys == {k} && WellKeyed(w.lock) && w.lock[k].hash == Sha(tree) && AllMatch(ctx, w.disk, k.skill, Sha(tree))
  }

  ghost predicate Updates(ctx: Ctx) { ctx.update && ctx.updateOnly == {} }

  /** The lock holds another tree for `k` than this. */
  ghost predicate HoldsOther(k: Key, w: World, tree: Tree) { k in w.lock && w.lock[k].hash != Sha(tree) }

  /** Somewhere a tree differs from the one before it. */
  ghost predicate Turns(trees: seq<Tree>) {
    exists i :: 0 < i < |trees| && trees[i - 1] != trees[i]
  }

  /** The state after coverings that brought these trees, in this order. */
  ghost predicate BroughtTo(ctx: Ctx, k: Key, s0: State, trees: seq<Tree>, s: State) {
    && s.tally.failed == s0.tally.failed && s.tally.updated >= s0.tally.updated
    && (trees == [] ==> s.world == s0.world && s.desired == s0.desired && s.tally.updated == s0.tally.updated)
    && (trees != [] ==>
          Left(ctx, k, s.world, trees[|trees| - 1]) && k in s.desired
          && (HoldsOther(k, s0.world, trees[0]) || Turns(trees) ==> s.tally.updated > s0.tally.updated))
  }

  ghost predicate Fresh(k: Key, s: State) { s.world.lock.Keys <= {k} && WellKeyed(s.world.lock) }

  lemma BringOne(ctx: Ctx, k: Key, s: State, want: Wanted)
    requires ctx.Valid() && Fresh(k, s) && want.latest.Some?
    ensures var s' := ProcessedOne(ctx, true, s, k, want);
      && Left(ctx, k, s'.world, want.tree) && k in s'.desired && s'.tally.failed == s.tally.failed
      && s'.tally.updated >= s.tally.updated && (HoldsOther(k, s.world, want.tree) ==> s'.tally.updated > s.tally.updated)
  {
    var s' := ProcessedOne(ctx, true, s, k, want);
    EntryFits(ctx, s.world, k, want);
    hide EntryAfter, ApplyOne, AllMatch;
    ApplyOneAt(ctx, s.world, k, want, k, Path(ctx.dests[0], k.skill));
    forall x ensures x in s'.world.lock <==> x == k {
      ApplyOneAt(ctx, s.world, k, want, x, Path(ctx.dests[0], k.skill));
    }
    assert s'.world.lock.Keys == {k};
    AllHave(ctx, s.world, k, want);
  }

  lemma AllHave(ctx: Ctx, w: World, k: Key, want: Wanted)
    requires ctx.Valid() && (want.latest.None? ==> k in w.lock)
    ensures AllMatch(ctx, ApplyOne(ctx, w, k, want).disk, k.skill, Sha(want.tree))
  {
    hide ApplyOne;
    forall d | d in ctx.dests ensures Matches(ApplyOne(ctx, w, k, want).disk, d, k.skill, Sha(want.tree)) {
      ApplyOneAt(ctx, w, k, want, k, Path(d, k.skill));
    }
  }

  lemma {:induction false} BringAll(ctx: Ctx, o: Offer, s: State, covers: seq<Cover>)
    requires ctx.Valid() && Fresh(o.key, s)
    ensures var tasks := TasksFor(o, covers);
      TasksServable(s.world.lock, o.key.source, tasks)
      && BroughtTo(ctx, o.key, s, TreesFor(o, covers), ProcessAll(ctx, true, s, o.key.source, tasks))
    decreases |covers|
  {
    hide ProcessedOne, AllMatch, WellKeyed;
    var tasks := TasksFor(o, covers);
    if covers != [] {
      var n := |covers| - 1;
      var init := covers[..n];
      BringAll(ctx, o, s, init);
      assert tasks[..n] == TasksFor(o, init) && TreesFor(o, covers)[..n] == TreesFor(o, init);
      BringOne(ctx, o.key, ProcessAll(ctx, true, s, o.key.source, tasks[..n]), tasks[n].want);
      if n > 0 { assert TreesFor(o, covers)[0] == TreesFor(o, init)[0]; }
    }
  }

  ghost function TreesFor(o: Offer, covers: seq<Cover>): seq<Tree> {
    seq(|covers|, i requires 0 <= i < |covers| => o.tree(covers[i]))
  }

  lemma StepBrings(ctx: Ctx, o: Offer, s: State, src: SourceSpec)
    requires ctx.Valid() && Offers(ctx, o) && Updates(ctx) && src.skills != Wildcard(false) && Fresh(o.key, s)
    ensures BroughtTo(ctx, o.key, s, TreesFor(o, CoversOf(src, o.key)), StepSource(ctx, true, s, src))
  {
    hide SourceFails, Tasks, Offers, CoversOf, ProcessAll, Broken, AllMatch, NeedsFetch;
    assert UpdateActive(ctx, DesiredNames(s.world.lock, src));
    FetchedCovers(ctx, o, s.world, src);
    TasksAreServable(ctx, s.world, src);
    var covers, s1 := CoversOf(src, o.key), WithBroken(ctx, s.world, s, src);
    if covers == [] {
      assert Tasks(ctx, s.world, src) == [];
      NoTasks(ctx, true, s1, src.source);
    } else {
      CoversSome(src, o.key);
      BringAll(ctx, o, s1, covers);
    }
  }

  lemma BroughtOn(ctx: Ctx, k: Key, s0: State, a: seq<Tree>, s1: State, b: seq<Tree>, s2: State)
    requires BroughtTo(ctx, k, s0, a, s1) && BroughtTo(ctx, k, s1, b, s2)
    ensures BroughtTo(ctx, k, s0, a + b, s2)
  {
    hide Left, HoldsOther, Turns;
    if a == [] { assert a + b == b; }
    else if b == [] { assert a + b == a; }
    else {
      LeftHoldsOther(ctx, k, s1.world, a[|a| - 1], b[0]);
      if Turns(a + b) { TurnSplits(a, b); }
    }
  }

  lemma LeftHoldsOther(ctx: Ctx, k: Key, w: World, tree: Tree, other: Tree)
    requires Left(ctx, k, w, tree)
    ensures HoldsOther(k, w, other) <==> tree != other
  {
  }

  lemma TurnSplits(a: seq<Tree>, b: seq<Tree>)
    requires Turns(a + b) && a != [] && b != []
    ensures Turns(a) || Turns(b) || a[|a| - 1] != b[0]
  {
    var i :| 0 < i < |a + b| && (a + b)[i - 1] != (a + b)[i];
    if i < |a| { assert a[i - 1] != a[i]; } else if i > |a| { assert b[i - 1 - |a|] != b[i - |a|]; }
  }

  lemma BroughtIsFresh(ctx: Ctx, k: Key, s0: State, trees: seq<Tree>, s: State)
    requires Fresh(k, s0) && BroughtTo(ctx, k, s0, trees, s)
    ensures Fresh(k, s)
  {
    hide AllMatch;
  }

  lemma {:induction false} RunBrings(ctx: Ctx, o: Offer, s0: State, i: nat)
    requires ctx.Valid() && Offers(ctx, o) && Updates(ctx) && ValidFields(ctx.sources) && i <= |ctx.sources| && Fresh(o.key, s0)
    ensures BroughtTo(ctx, o.key, s0, TreesFor(o, Coverings(ctx.sources, o.key, i)), RunSources(ctx, true, s0, i))
  {
    hide StepSource, Offers, Updates, CoversOf, BroughtTo, Fresh;
    if i == 0 {
      BroughtNothing(ctx, o.key, s0);
      assert TreesFor(o, Coverings(ctx.sources, o.key, 0)) == [];
    } else {
      var src := ctx.sources[i - 1];
      RunBrings(ctx, o, s0, i - 1);
      var before := Coverings(ctx.sources, o.key, i - 1);
      BroughtIsFresh(ctx, o.key, s0, TreesFor(o, before), RunSources(ctx, true, s0, i - 1));
      StepBrings(ctx, o, RunSources(ctx, true, s0, i - 1), src);
      BroughtOn(ctx, o.key, s0, TreesFor(o, before), RunSources(ctx, true, s0, i - 1), TreesFor(o, CoversOf(src, o.key)), RunSources(ctx, true, s0, i));
      assert TreesFor(o, before + CoversOf(src, o.key)) == TreesFor(o, before) + TreesFor(o, CoversOf(src, o.key));
    }
  }

  lemma BroughtNothing(ctx: Ctx, k: Key, s: State)
    ensures BroughtTo(ctx, k, s, [], s)
  {
  }

  ghost predicate Converges(ctx: Ctx, w: World) {
    ctx.Valid() && WellKeyed(w.lock) && NamesOnce(ctx, w) && SyncSkills(ctx, true, w).tally.failed == 0 ==>
      var w1 := SyncSkills(ctx, true, w).world;
      SyncSkills(ctx, true, w1).world == w1 && OnlyKept(SyncSkills(ctx, true, w1).tally)
  }

  ghost predicate AlwaysConverges(sources: seq<SourceSpec>) {
    forall ctx: Ctx, w: World :: ctx.sources == sources ==> Converges(ctx, w)
  }

  lemma NowhereIsFresh(k: Key)
    ensures Fresh(k, Start(NOWHERE))
  {
  }

  lemma FirstRun(ctx: Ctx, o: Offer, trees: seq<Tree>)
    requires ctx.Valid() && Offers(ctx, o) && Updates(ctx) && ValidFields(ctx.sources)
    requires trees == TreesFor(o, Coverings(ctx.sources, o.key, |ctx.sources|)) && trees != []
    ensures var r := SyncSkills(ctx, true, NOWHERE); r.tally.failed == 0 && Left(ctx, o.key, r.world, trees[|trees| - 1])
  {
    hide Offers, Updates, AllMatch, Prune, RunSources, Stale, Coverings;
    NowhereIsFresh(o.key);
    RunBrings(ctx, o, Start(NOWHERE), |ctx.sources|);
    PrunesNothing(RunSources(ctx, true, Start(NOWHERE), |ctx.sources|));
  }

  lemma {:induction false} DifferentTurn(trees: seq<Tree>, i: nat, j: nat)
    requires i < j < |trees| && trees[i] != trees[j]
    ensures Turns(trees)
    decreases j - i
  {
    if trees[j - 1] == trees[j] { DifferentTurn(trees, i, j - 1); }
  }

  /** From where the first run left `k`, coverings that bring different trees undo each other's work again. */
  lemma SecondRun(ctx: Ctx, o: Offer, trees: seq<Tree>, w1: World)
    requires ctx.Valid() && Offers(ctx, o) && Updates(ctx) && ValidFields(ctx.sources)
    requires trees == TreesFor(o, Coverings(ctx.sources, o.key, |ctx.sources|)) && trees != []
    requires Left(ctx, o.key, w1, trees[|trees| - 1]) && Turns(trees)
    ensures SyncSkills(ctx, true, w1).tally.updated > 0
  {
    hide Offers, Updates, AllMatch, Stale, PruneWorld, RunSources, Coverings, Turns;
    RunBrings(ctx, o, Start(w1), |ctx.sources|);
  }

  lemma OverlapNeverSettles(ctx: Ctx, o: Offer, trees: seq<Tree>)
    requires Offers(ctx, o) && Updates(ctx) && ValidFields(ctx.sources)
    requires ListedOnce(ctx.sources) && ListedUnder(ctx.sources, o.key)
    requires trees == TreesFor(o, Coverings(ctx.sources, o.key, |ctx.sources|)) && Turns(trees)
    ensures !Converges(ctx, NOWHERE)
  {
    hide Updates, SyncSkills, ListedOnce, NamesOnce, ValidFields, Left, Coverings;
    assert ctx.Valid();
    OfferNamesOnce(ctx, o);
    FirstRun(ctx, o, trees);
    SecondRun(ctx, o, trees, SyncSkills(ctx, true, NOWHERE).world);
  }

  lemma ConvergesIfOneWay(ctx: Ctx, w: World)
    requires OneWay(ctx.sources)
    ensures Converges(ctx, w)
  {
    hide SyncSkills, OneWay, NamesOnce, WellKeyed, OnlyKept;
    if ctx.Valid() && WellKeyed(w.lock) && NamesOnce(ctx, w) && SyncSkills(ctx, true, w).tally.failed == 0 {
      SyncConverges(ctx, w);
    }
  }

  lemma {:induction false} SelectorCovers(src: SourceSpec, items: seq<Selector>, s: Selector)
    requires s in items
    ensures Cover(src, PathOf(s)) in ListCovers(src, items, s.name)
  {
    var m := |items| - 1;
    if s != items[m] { SelectorCovers(src, items[..m], s); }
  }

  lemma {:induction false} CoverCounts(sources: seq<SourceSpec>, k: Key, i: nat, j: nat, c: Cover)
    requires i < j <= |sources| && c in CoversOf(sources[i], k)
    ensures c in Coverings(sources, k, j)
  {
    hide CoversOf;
    if i < j - 1 { CoverCounts(sources, k, i, j - 1, c); }
  }

  lemma {:induction false} ListCoversAre(src: SourceSpec, items: seq<Selector>, n: Name)
    ensures forall c :: c in ListCovers(src, items, n) ==> c.src == src
  {
    if items != [] { ListCoversAre(src, items[..|items| - 1], n); }
  }

  lemma SomeCover(sources: seq<SourceSpec>, i: nat, k: Key) returns (c: Cover)
    requires i < |sources| && Covers(sources[i], k)
    ensures c.src == sources[i] && c in Coverings(sources, k, |sources|)
  {
    hide Coverings, Covers;
    var src := sources[i];
    CoversSome(src, k);
    c := CoversOf(src, k)[0];
    if src.skills.List? { ListCoversAre(src, src.skills.items, k.skill); }
    CoverCounts(sources, k, i, |sources|, c);
  }

  /** A skill that the config asks for in two ways, and that no entry of another source lists. */
  lemma MixedKey(sources: seq<SourceSpec>, spare: Name) returns (k: Key, c: Cover, d: Cover)
    requires !OneWay(sources) && ListedOnce(sources) && forall l :: 0 <= l < |sources| ==> !Lists(sources[l], spare)
    ensures c != d && c in Coverings(sources, k, |sources|) && d in Coverings(sources, k, |sources|) && ListedUnder(sources, k)
  {
    hide Coverings;
    if i: nat :| i < |sources| && !OneSelector(sources[i]) {
      var items := sources[i].skills.items;
      var s, t :| s in items && t in items && s.name == t.name && PathOf(s) != PathOf(t);
      k, c, d := Key(sources[i].source, s.name), Cover(sources[i], PathOf(s)), Cover(sources[i], PathOf(t));
      SelectorCovers(sources[i], items, s);
      SelectorCovers(sources[i], items, t);
      CoverCounts(sources, k, i, |sources|, c);
      CoverCounts(sources, k, i, |sources|, d);
      assert Lists(sources[i], k.skill);
    } else {
      var i: nat, j: nat;
      i, j, k :| i < |sources| && j < |sources| && Covers(sources[i], k) && Covers(sources[j], k) && sources[i] != sources[j];
      if sources[i].skills.Wildcard? && sources[j].skills.Wildcard? {
        k := Key(k.source, spare);
      } else {
        var l := if sources[i].skills.List? then i else j;
        assert Lists(sources[l], k.skill);
      }
      c := SomeCover(sources, i, k);
      d := SomeCover(sources, j, k);
    }
  }

  lemma CoversTurn(o: Offer, covers: seq<Cover>, c: Cover, d: Cover)
    requires c in covers && d in covers && o.tree(c) != o.tree(d)
    ensures Turns(TreesFor(o, covers))
  {
    var i, j :| 0 <= i < |covers| && 0 <= j < |covers| && covers[i] == c && covers[j] == d;
    var trees := TreesFor(o, covers);
    assert trees[i] == o.tree(c) && trees[j] == o.tree(d);
    DifferentTurn(trees, if i < j then i else j, if i < j then j else i);
  }

  /** Syncs of a config converge in every world exactly when no skill is asked for in two different ways.
      Otherwise the two ways can overwrite each other's work for ever. */
  lemma ConvergesExactly(sources: seq<SourceSpec>, dest: Dest, spare: Name, tree: Tree, other: Tree, text: Text, rev: Label)
    requires ValidFields(sources) && ListedOnce(sources) && forall l :: 0 <= l < |sources| ==> !Lists(sources[l], spare)
    requires tree != other
    ensures AlwaysConverges(sources) <==> OneWay(sources)
  {
    hide Converges, OneWay, ListedOnce, Lists, ValidFields, Offered, Coverings, Turns;
    if OneWay(sources) {
      forall ctx: Ctx, w: World | ctx.sources == sources ensures Converges(ctx, w) { ConvergesIfOneWay(ctx, w); }
    } else {
      var k, c, d := MixedKey(sources, spare);
      var o := Offer(k, x => if x == c then other else tree, text, rev);
      var ctx := Ctx(sources, src => Offered(o, src), [dest], true, {}, false);
      CoversTurn(o, Coverings(sources, k, |sources|), c, d);
      OverlapNeverSettles(ctx, o, TreesFor(o, Coverings(sources, k, |sources|)));
      assert !Converges(ctx, NOWHERE);
    }
  }

  // ---------------------------------------------------------------- instances

  /** One entry that lists `x` twice. */
  ghost function Repeating(a: Source, x: Name, dest: Dest, item: Item, rev: Label): Ctx {
    Ctx([SourceSpec(a, None, List([ByName(x), ByName(x)]), rev)], src => Fetched(rev, map[x := item], map[]), [dest], false, {}, false)
  }

  lemma RepeatedLook(a: Source, x: Name, dest: Dest, item: Item, rev: Label)
    ensures var ctx := Repeating(a, x, dest, item, rev);
      && !SourceFails(ctx, NOWHERE, ctx.sources[0])
      && (var t := Task(x, Wanted(item.tree, Some((item.description, rev)))); Tasks(ctx, NOWHERE, ctx.sources[0]) == [t, t])
  {
    var ctx := Repeating(a, x, dest, item, rev);
    var src := ctx.sources[0];
    var items, f := src.skills.items, ctx.fetch(src);
    assert items[0] in items && x in DesiredNames(NOWHERE.lock, src);
    assert Unservable(ctx, NOWHERE, src, x);
    assert items[..1] == [ByName(x)] && items[..1][..0] == [];
    assert ListTasks(items[..1][..0], f) == [];
    assert ListTasks(items[..1], f) == [Task(x, Latest(item, f))];
    assert ListTasks(items, f) == ListTasks(items[..1], f) + [Task(x, Latest(item, f))];
  }

  /** A skill listed twice: the preview counts two installations, the sync makes one and finds it unchanged. */
  lemma RepeatIsMiscounted(a: Source, x: Name, dest: Dest, item: Item, rev: Label)
    ensures var ctx := Repeating(a, x, dest, item, rev);
      && ctx.Valid() && WellKeyed(NOWHERE.lock) && NamesOnce(ctx, NOWHERE)
      && (var preview, applied := SyncSkills(ctx, false, NOWHERE), SyncSkills(ctx, true, NOWHERE);
          && preview.tally == ZERO.(installed := 2) && applied.tally == ZERO.(installed := 1, kept := 1))
  {
    hide SourceFails, Tasks, Fetches, NamesOnce, WellKeyed, Stale, PruneWorld;
    var ctx := Repeating(a, x, dest, item, rev);
    NothingIsKeyed();
    RepeatNamesOnce(a, x, dest, item, rev);
    RepeatedLook(a, x, dest, item, rev);
    RepeatedRun(a, x, dest, item, rev, true);
    RepeatedRun(a, x, dest, item, rev, false);
  }

  lemma RepeatNamesOnce(a: Source, x: Name, dest: Dest, item: Item, rev: Label)
    ensures NamesOnce(Repeating(a, x, dest, item, rev), NOWHERE)
  {
    var ctx := Repeating(a, x, dest, item, rev);
    forall k | Involved(ctx, NOWHERE, k) ensures k.source == a {
      var i :| 0 <= i < 1 && BroughtUp(ctx, NOWHERE, ctx.sources[i], k);
    }
  }

  lemma TwoTasks(ctx: Ctx, apply: bool, s: State, source: Source, t: Task)
    requires ctx.Valid() && t.want.latest.Some?
    ensures TasksServable(s.world.lock, source, [t, t])
    ensures var k := Key(source, t.name);
      ProcessAll(ctx, apply, s, source, [t, t]) == ProcessedOne(ctx, apply, ProcessedOne(ctx, apply, s, k, t.want), k, t.want)
  {
    hide ProcessedOne;
    var k := Key(source, t.name);
    assert [t, t][..1] == [t] && [t][..0] == [];
    assert ProcessAll(ctx, apply, s, source, []) == s;
    assert ProcessAll(ctx, apply, s, source, [t]) == ProcessedOne(ctx, apply, s, k, t.want);
  }

  lemma RepeatedRun(a: Source, x: Name, dest: Dest, item: Item, rev: Label, apply: bool)
    ensures var ctx := Repeating(a, x, dest, item, rev);
      ctx.Valid() && SyncSkills(ctx, apply, NOWHERE).tally == if apply then ZERO.(installed := 1, kept := 1) else ZERO.(installed := 2)
  {
    hide SourceFails, Tasks, Fetches, Unchanged, EntryAfter, ApplyOne, ProcessAll;
    var ctx := Repeating(a, x, dest, item, rev);
    var src, k, want := ctx.sources[0], Key(a, x), Wanted(item.tree, Some((item.description, rev)));
    RepeatedLook(a, x, dest, item, rev);
    NoneBroken(a, x, dest, item, rev);
    TwoTasks(ctx, apply, Start(NOWHERE), a, Task(x, want));
    InstalledThenKept(ctx, k, want);
    var s := ProcessedOne(ctx, apply, Start(NOWHERE), k, want);
    var r := ProcessedOne(ctx, apply, s, k, want);
    assert RunSources(ctx, apply, Start(NOWHERE), 0) == Start(NOWHERE);
    assert RunSources(ctx, apply, Start(NOWHERE), 1) == r;
    PrunesNoTally(apply, r);
  }

  lemma NoneBroken(a: Source, x: Name, dest: Dest, item: Item, rev: Label)
    ensures var ctx := Repeating(a, x, dest, item, rev);
      ctx.fetch(ctx.sources[0]).Fetched? && Broken(ctx.sources[0], ctx.fetch(ctx.sources[0])) == 0
  {
    var ctx := Repeating(a, x, dest, item, rev);
    var items, f := ctx.sources[0].skills.items, ctx.fetch(ctx.sources[0]);
    assert items[..1] == [ByName(x)] && items[..1][..0] == [];
    assert BrokenCount(items[..1][..0], f) == 0 && BrokenCount(items[..1], f) == 0;
  }

  lemma InstalledThenKept(ctx: Ctx, k: Key, want: Wanted)
    requires ctx.Valid() && want.latest.Some?
    ensures var s := ProcessedOne(ctx, true, Start(NOWHERE), k, want);
      && s.tally == ZERO.(installed := 1) && Unchanged(ctx, s.world, k, want.tree)
      && ProcessedOne(ctx, true, s, k, want).world.lock.Keys == {k}
    ensures var s := ProcessedOne(ctx, false, Start(NOWHERE), k, want);
      s.tally == ZERO.(installed := 1) && s.world == NOWHERE && !Unchanged(ctx, s.world, k, want.tree)
  {
    NowhereIsFresh(k);
    BringOne(ctx, k, Start(NOWHERE), want);
    BringOne(ctx, k, ProcessedOne(ctx, true, Start(NOWHERE), k, want), want);
    hide ApplyOne, AllMatch, EntryAfter;
  }

  lemma PrunesNoTally(apply: bool, s: State)
    requires s.world.lock.Keys <= s.desired
    ensures Prune(apply, s).tally == s.tally
  {
    assert Stale(s) == {};
  }

  lemma NothingIsKeyed()
    ensures WellKeyed(NOWHERE.lock)
  {
  }

  /** Two entries of one source: `x` by name from its root, and everything under a sub-directory, where `y` is. */
  ghost function Hiding(a: Source, q: SubPath, x: Name, y: Name, dest: Dest, item: Item, rev: Label): Ctx {
    var listed, starred := SourceSpec(a, None, List([ByName(x)]), rev), SourceSpec(a, Some(q), Wildcard(true), rev);
    Ctx([listed, starred], src => Fetched(rev, map[(if src == starred then y else x) := item], map[]), [dest], false, {}, false)
  }

  ghost function Newly(n: Name, item: Item, rev: Label): Task { Task(n, Wanted(item.tree, Some((item.description, rev)))) }

  lemma ListedLook(a: Source, q: SubPath, x: Name, y: Name, dest: Dest, item: Item, rev: Label)
    ensures var ctx := Hiding(a, q, x, y, dest, item, rev);
      && !SourceFails(ctx, NOWHERE, ctx.sources[0]) && Fetches(ctx, NOWHERE, ctx.sources[0])
      && Tasks(ctx, NOWHERE, ctx.sources[0]) == [Newly(x, item, rev)]
      && Broken(ctx.sources[0], ctx.fetch(ctx.sources[0])) == 0
  {
    var ctx := Hiding(a, q, x, y, dest, item, rev);
    var src := ctx.sources[0];
    var items, f := src.skills.items, ctx.fetch(src);
    assert items[0] in items && x in DesiredNames(NOWHERE.lock, src);
    assert Unservable(ctx, NOWHERE, src, x);
    assert items[..0] == [] && ListTasks(items[..0], f) == [] && BrokenCount(items[..0], f) == 0;
    assert ListTasks(items, f) == [Newly(x, item, rev)];
  }

  lemma StarredLook(a: Source, q: SubPath, x: Name, y: Name, dest: Dest, item: Item, rev: Label)
    ensures var ctx := Hiding(a, q, x, y, dest, item, rev);
      && !SourceFails(ctx, NOWHERE, ctx.sources[1]) && Fetches(ctx, NOWHERE, ctx.sources[1])
      && Tasks(ctx, NOWHERE, ctx.sources[1]) == [Newly(y, item, rev)]
      && Broken(ctx.sources[1], ctx.fetch(ctx.sources[1])) == 0
  {
    var ctx := Hiding(a, q, x, y, dest, item, rev);
    var f := ctx.fetch(ctx.sources[1]);
    assert f.available.Keys == {y};
    OneName(Listing(f.available.Keys), y);
  }

  /** With `x` locked, the wildcard is served from the lock. */
  lemma StarredBlinded(a: Source, q: SubPath, x: Name, y: Name, dest: Dest, item: Item, rev: Label, w: World)
    requires w.lock.Keys == {Key(a, x)} && WellKeyed(w.lock) && w.lock[Key(a, x)].hash == Sha(item.tree)
    requires w.lock[Key(a, x)].revision == Some(rev) && Matches(w.disk, dest, x, Sha(item.tree))
    ensures var ctx := Hiding(a, q, x, y, dest, item, rev);
      && !SourceFails(ctx, w, ctx.sources[1]) && !Fetches(ctx, w, ctx.sources[1])
      && Tasks(ctx, w, ctx.sources[1]) == [Task(x, Wanted(item.tree, None))]
  {
    var ctx := Hiding(a, q, x, y, dest, item, rev);
    var src := ctx.sources[1];
    assert w.lock[Key(a, x)].source == a;
    forall n ensures n in DesiredNames(w.lock, src) <==> n == x {
      if n == x { assert Key(a, x) in w.lock && w.lock[Key(a, x)].skill == x; }
    }
    assert dest in ctx.dests && SomeGood(ctx, w.disk, x, Sha(item.tree));
    assert !Unservable(ctx, w, src, x);
    assert DesiredNames(w.lock, src) == {x};
    var names := Listing(DesiredNames(w.lock, src));
    OneName(names, x);
    assert names[..0] == [] && LockTasks(w.lock, a, names[..0]) == [];
  }

  lemma HidingNamesOnce(a: Source, q: SubPath, x: Name, y: Name, dest: Dest, item: Item, rev: Label)
    ensures NamesOnce(Hiding(a, q, x, y, dest, item, rev), NOWHERE)
  {
    var ctx := Hiding(a, q, x, y, dest, item, rev);
    forall k | Involved(ctx, NOWHERE, k) ensures k.source == a {
      var i :| 0 <= i < 2 && BroughtUp(ctx, NOWHERE, ctx.sources[i], k);
    }
  }

  lemma OneTask(ctx: Ctx, apply: bool, s: State, src: SourceSpec, t: Task)
    requires ctx.Valid() && !SourceFails(ctx, s.world, src) && Tasks(ctx, s.world, src) == [t]
    requires Fetches(ctx, s.world, src) ==> Broken(src, ctx.fetch(src)) == 0
    ensures t.want.latest.None? ==> Key(src.source, t.name) in s.world.lock
    ensures StepSource(ctx, apply, s, src) == ProcessedOne(ctx, apply, s, Key(src.source, t.name), t.want)
  {
    hide SourceFails, Tasks, Fetches, ProcessedOne, Broken;
    TasksAreServable(ctx, s.world, src);
    assert [t][..0] == [] && Tasks(ctx, s.world, src)[0] == t;
    NoTasks(ctx, apply, s, src.source);
  }

  /** A list entry hides a wildcard of the same source: the preview promises `y`, and the sync never installs it. */
  lemma WildcardIsHidden(a: Source, q: SubPath, x: Name, y: Name, dest: Dest, item: Item, rev: Label)
    requires x != y
    ensures var ctx := Hiding(a, q, x, y, dest, item, rev);
      && ctx.Valid() && WellKeyed(NOWHERE.lock) && NamesOnce(ctx, NOWHERE)
      && (var preview, applied := SyncSkills(ctx, false, NOWHERE), SyncSkills(ctx, true, NOWHERE);
          && preview.tally == ZERO.(installed := 2) && preview.desired == {Key(a, x), Key(a, y)}
          && applied.tally == ZERO.(installed := 1, kept := 1)
          && applied.desired == {Key(a, x)} && applied.world.lock.Keys == {Key(a, x)})
  {
    var ctx := Hiding(a, q, x, y, dest, item, rev);
    NothingIsKeyed();
    HidingNamesOnce(a, q, x, y, dest, item, rev);
    HiddenApplied(a, q, x, y, dest, item, rev);
    HiddenPreview(a, q, x, y, dest, item, rev);
    hide NamesOnce, WellKeyed, SyncSkills;
  }

  lemma HiddenPreview(a: Source, q: SubPath, x: Name, y: Name, dest: Dest, item: Item, rev: Label)
    requires x != y
    ensures var ctx := Hiding(a, q, x, y, dest, item, rev);
      ctx.Valid() && SyncSkills(ctx, false, NOWHERE) == State(NOWHERE, ZERO.(installed := 2), {Key(a, x), Key(a, y)})
  {
    hide SourceFails, Tasks, Fetches, StepSource, Broken, AllMatch, EntryAfter, ApplyOne;
    var ctx := Hiding(a, q, x, y, dest, item, rev);
    ListedLook(a, q, x, y, dest, item, rev);
    StarredLook(a, q, x, y, dest, item, rev);
    OneTask(ctx, false, Start(NOWHERE), ctx.sources[0], Newly(x, item, rev));
    var s := StepSource(ctx, false, Start(NOWHERE), ctx.sources[0]);
    assert s == State(NOWHERE, ZERO.(installed := 1), {Key(a, x)});
    OneTask(ctx, false, s, ctx.sources[1], Newly(y, item, rev));
    var r := StepSource(ctx, false, s, ctx.sources[1]);
    assert r == State(NOWHERE, ZERO.(installed := 2), {Key(a, x), Key(a, y)});
    TwoSources(ctx, false);
    NothingStale(r);
  }

  lemma NothingStale(s: State)
    requires s.world == NOWHERE
    ensures Prune(false, s) == s
  {
    assert Stale(s) == {};
  }

  lemma HiddenApplied(a: Source, q: SubPath, x: Name, y: Name, dest: Dest, item: Item, rev: Label)
    requires x != y
    ensures var ctx := Hiding(a, q, x, y, dest, item, rev);
      && ctx.Valid()
      && (var r := SyncSkills(ctx, true, NOWHERE);
          r.tally == ZERO.(installed := 1, kept := 1) && r.desired == {Key(a, x)} && r.world.lock.Keys == {Key(a, x)})
  {
    hide SourceFails, Tasks, Fetches, StepSource, Broken, AllMatch, Unchanged, ApplyOne, Prune;
    var ctx := Hiding(a, q, x, y, dest, item, rev);
    var k, new1, again := Key(a, x), Newly(x, item, rev), Task(x, Wanted(item.tree, None));
    ListedLook(a, q, x, y, dest, item, rev);
    OneTask(ctx, true, Start(NOWHERE), ctx.sources[0], new1);
    InstalledThenKept(ctx, k, new1.want);
    var s := StepSource(ctx, true, Start(NOWHERE), ctx.sources[0]);
    FirstEntry(ctx, k, new1.want);
    StarredBlinded(a, q, x, y, dest, item, rev, s.world);
    OneTask(ctx, true, s, ctx.sources[1], again);
    KeptAsLocked(ctx, s, k, again.want);
    TwoSources(ctx, true);
    PrunesNothing(StepSource(ctx, true, s, ctx.sources[1]));
  }

  lemma FirstEntry(ctx: Ctx, k: Key, want: Wanted)
    requires ctx.Valid() && want.latest.Some?
    ensures var w := ProcessedOne(ctx, true, Start(NOWHERE), k, want).world;
      && w.lock.Keys == {k} && WellKeyed(w.lock) && w.lock[k].hash == Sha(want.tree)
      && w.lock[k].revision == Some(want.latest.value.1) && Matches(w.disk, ctx.dests[0], k.skill, Sha(want.tree))
  {
    hide CountOne;
    NowhereIsFresh(k);
    BringOne(ctx, k, Start(NOWHERE), want);
    ApplyOneAt(ctx, NOWHERE, k, want, k, Path(ctx.dests[0], k.skill));
    assert Matches(ProcessedOne(ctx, true, Start(NOWHERE), k, want).world.disk, ctx.dests[0], k.skill, Sha(want.tree));
  }

  lemma KeptAsLocked(ctx: Ctx, s: State, k: Key, want: Wanted)
    requires ctx.Valid() && want.latest.None? && k in s.world.lock && Unchanged(ctx, s.world, k, want.tree)
    ensures var s' := ProcessedOne(ctx, true, s, k, want);
      && s'.tally == s.tally.(kept := s.tally.kept + 1) && s'.desired == s.desired + {k} && s'.world.lock.Keys == s.world.lock.Keys
  {
    hide Unchanged, EntryAfter;
  }

  lemma TwoSources(ctx: Ctx, apply: bool)
    requires ctx.Valid() && |ctx.sources| == 2
    ensures SyncSkills(ctx, apply, NOWHERE)
         == Prune(apply, StepSource(ctx, apply, StepSource(ctx, apply, Start(NOWHERE), ctx.sources[0]), ctx.sources[1]))
  {
    hide StepSource, Prune;
    assert RunSources(ctx, apply, Start(NOWHERE), 0) == Start(NOWHERE);
    assert RunSources(ctx, apply, Start(NOWHERE), 1) == StepSource(ctx, apply, Start(NOWHERE), ctx.sources[0]);
  }

  /** `x` was installed from `a`, and the config now lists it under `b`. */
  ghost function Moving(b: Source, x: Name, dest: Dest, item: Item, rev: Label): Ctx {
    Ctx([SourceSpec(b, None, List([ByName(x)]), rev)], src => Fetched(rev, map[x := item], map[]), [dest], false, {}, false)
  }

  ghost function Before(a: Source, x: Name, dest: Dest, tree: Tree, text: Text, rev: Label): World {
    World(map[Key(a, x) := Entry(Path(dest, x), Sha(tree), x, text, a, Some(rev))], map[Path(dest, x) := tree])
  }

  lemma MovingLook(a: Source, b: Source, x: Name, dest: Dest, tree: Tree, text: Text, item: Item, rev: Label)
    requires a != b
    ensures var ctx, w := Moving(b, x, dest, item, rev), Before(a, x, dest, tree, text, rev);
      && !SourceFails(ctx, w, ctx.sources[0]) && Fetches(ctx, w, ctx.sources[0])
      && Tasks(ctx, w, ctx.sources[0]) == [Newly(x, item, rev)]
      && Broken(ctx.sources[0], ctx.fetch(ctx.sources[0])) == 0
  {
    var ctx, w := Moving(b, x, dest, item, rev), Before(a, x, dest, tree, text, rev);
    var src := ctx.sources[0];
    var items, f := src.skills.items, ctx.fetch(src);
    assert items[0] in items && x in DesiredNames(w.lock, src);
    assert Unservable(ctx, w, src, x);
    assert items[..0] == [] && ListTasks(items[..0], f) == [] && BrokenCount(items[..0], f) == 0;
    assert ListTasks(items, f) == [Newly(x, item, rev)];
  }

  lemma InstallsOne(ctx: Ctx, s: State, k: Key, want: Wanted, other: Key)
    requires ctx.Valid() && want.latest.Some? && k !in s.world.lock && other in s.world.lock
    ensures var s' := ProcessedOne(ctx, true, s, k, want);
      && s'.tally == s.tally.(installed := s.tally.installed + 1) && s'.desired == s.desired + {k}
      && s'.world.lock.Keys == s.world.lock.Keys + {k} && s'.world.lock[other] == s.world.lock[other]
  {
    hide AllMatch, EntryAfter;
  }

  /** The prune of one stale entry takes the directory recorded for it. */
  lemma PrunesOne(s: State, o: Key, k: Key, p: Path)
    requires s.tally.failed == 0 && s.world.lock.Keys == {o} + {k} && s.desired == {k} && o != k
    requires s.world.lock[o].destination == p
    ensures var r := Prune(true, s);
      r.tally == s.tally.(removed := s.tally.removed + 1) && r.world.lock.Keys == {k} && p !in r.world.disk
  {
    assert Stale(s) == {o};
    var w' := PruneWorld(s);
    assert w'.lock.Keys == {k};
    assert p in set x | x in Stale(s) :: s.world.lock[x].destination;
  }

  /** A skill that moves to another source: the sync installs it there, and the prune of the old entry then
      deletes the directory it has just been given. */
  lemma MovedSkillIsLost(a: Source, b: Source, x: Name, dest: Dest, tree: Tree, text: Text, item: Item, rev: Label)
    requires a != b
    ensures var ctx, w := Moving(b, x, dest, item, rev), Before(a, x, dest, tree, text, rev);
      && ctx.Valid() && WellKeyed(w.lock)
      && (var r := SyncSkills(ctx, true, w);
          && r.tally == ZERO.(installed := 1, removed := 1)
          && r.world.lock.Keys == {Key(b, x)} && Path(dest, x) !in r.world.disk)
  {
    hide SourceFails, Tasks, Fetches, StepSource, Broken, AllMatch, ProcessedOne, Prune;
    var ctx, w := Moving(b, x, dest, item, rev), Before(a, x, dest, tree, text, rev);
    MovingLook(a, b, x, dest, tree, text, item, rev);
    OneTask(ctx, true, Start(w), ctx.sources[0], Newly(x, item, rev));
    var s := StepSource(ctx, true, Start(w), ctx.sources[0]);
    assert RunSources(ctx, true, Start(w), 0) == Start(w);
    assert RunSources(ctx, true, Start(w), 1) == s;
    InstallsOne(ctx, Start(w), Key(b, x), Newly(x, item, rev).want, Key(a, x));
    PrunesOne(s, Key(a, x), Key(b, x), Path(dest, x));
  }
}
