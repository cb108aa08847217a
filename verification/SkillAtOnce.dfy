/** A source's skills brought in line at once: the same as one by one, when their names differ. */
module SkillAtOnce {
  import opened Collections
  import opened SkillSync
  import opened SkillRest

  // ------------------------------------------------------- what a source wants

  ghost function SelectorOf(items: seq<Selector>, n: Name): Selector
    requires n in ListNames(items)
  {
    var s :| s in items && s.name == n; s
  }

  /** The skills a fetched source provides for this spec, by name. */
  ghost function Selected(src: SourceSpec, f: Fetched): map<Name, Item>
    requires f.Fetched?
  {
    match src.skills
    case Wildcard(_) => f.available
    case List(items) =>
      map n | n in ListNames(items) && Resolve(f, SelectorOf(items, n)).Some? :: Resolve(f, SelectorOf(items, n)).value
  }

  ghost function Wants(ctx: Ctx, w: World, src: SourceSpec): map<Name, Wanted>
    requires !SourceFails(ctx, w, src)
  {
    if Fetches(ctx, w, src) then
      var f := ctx.fetch(src);
      var sel := Selected(src, f);
      map n | n in sel :: Wanted(sel[n].tree, Some((sel[n].description, f.revision)))
    else
      map n | n in DesiredNames(w.lock, src) && Key(src.source, n) in w.lock ::
        Wanted(w.lock[Key(src.source, n)].hash.of, None)
  }

  /** The wanted skills of one source that are well defined in `w`. */
  ghost predicate Servable(w: World, source: Source, want: map<Name, Wanted>) {
    forall n :: n in want && want[n].latest.None? ==> Key(source, n) in w.lock
  }

  ghost function ApplyWants(ctx: Ctx, w: World, source: Source, want: map<Name, Wanted>): World
    requires ctx.Valid() && Servable(w, source, want)
  {
    World(
      w.lock + (map k: Key | k in KeysOf(source, want.Keys) :: EntryAfter(ctx, w, k, want[k.skill])),
      w.disk + (map p: Path | p in PathsOf(ctx, want.Keys) :: want[p.name].tree))
  }

  ghost function KeysOf(source: Source, names: set<Name>): (ks: set<Key>)
    ensures forall k :: k in ks <==> k.source == source && k.skill in names
  {
    set n | n in names :: Key(source, n)
  }

  ghost function UnchangedNames(ctx: Ctx, w: World, source: Source, want: map<Name, Wanted>): set<Name> {
    set n | n in want && Unchanged(ctx, w, Key(source, n), want[n].tree)
  }

  ghost function UpdatedNames(ctx: Ctx, w: World, source: Source, want: map<Name, Wanted>): set<Name> {
    set n | n in want && Key(source, n) in w.lock && !Unchanged(ctx, w, Key(source, n), want[n].tree)
  }

  ghost function InstalledNames(w: World, source: Source, want: map<Name, Wanted>): set<Name> {
    set n | n in want && Key(source, n) !in w.lock
  }

  ghost function Counted(ctx: Ctx, w: World, t: Tally, source: Source, want: map<Name, Wanted>): Tally {
    t.(kept := t.kept + |UnchangedNames(ctx, w, source, want)|,
       updated := t.updated + |UpdatedNames(ctx, w, source, want)|,
       installed := t.installed + |InstalledNames(w, source, want)|)
  }

  // ---------------------------------------------------------- the whole run

  lemma WantsAreServable(ctx: Ctx, w: World, src: SourceSpec)
    requires !SourceFails(ctx, w, src)
    ensures Servable(w, src.source, Wants(ctx, w, src))
  {
  }

  /** One source; a preview (`apply` false) counts the same but leaves the world alone. */
  ghost function StepAtOnce(ctx: Ctx, apply: bool, s: State, src: SourceSpec): State
    requires ctx.Valid()
  {
    if SourceFails(ctx, s.world, src) then s.(tally := s.tally.(failed := s.tally.failed + 1))
    else
      var want := Wants(ctx, s.world, src);
      WantsAreServable(ctx, s.world, src);
      State(
        if apply then ApplyWants(ctx, s.world, src.source, want) else s.world,
        SourceTally(ctx, s.world, s.tally, src),
        s.desired + KeysOf(src.source, want.Keys))
  }

  ghost function SourceTally(ctx: Ctx, w: World, t: Tally, src: SourceSpec): Tally
    requires !SourceFails(ctx, w, src)
  {
    var counted := Counted(ctx, w, t, src.source, Wants(ctx, w, src));
    if Fetches(ctx, w, src) then counted.(broken := counted.broken + Broken(src, ctx.fetch(src))) else counted
  }

  ghost function RunAtOnce(ctx: Ctx, apply: bool, s: State, n: nat): State
    requires ctx.Valid() && n <= |ctx.sources|
  {
    if n == 0 then s else StepAtOnce(ctx, apply, RunAtOnce(ctx, apply, s, n - 1), ctx.sources[n - 1])
  }

  ghost function SyncAtOnce(ctx: Ctx, apply: bool, w: World): State
    requires ctx.Valid()
  {
    Prune(apply, RunAtOnce(ctx, apply, Start(w), |ctx.sources|))
  }

  // --------------------------------------------------------------- locality

  /** `w` and `w'` look the same to `src`: the lock entries it covers, and every directory under its names. */
  ghost predicate Agree(ctx: Ctx, w: World, w': World, src: SourceSpec) {
    && (forall k: Key :: Covers(src, k) ==> SameAt(w.lock, w'.lock, k))
    && (forall p: Path :: p.name in Names(ctx, w, src) ==> SameAt(w.disk, w'.disk, p))
  }

  lemma DesiredAgree(ctx: Ctx, w: World, w': World, src: SourceSpec)
    requires WellKeyed(w.lock) && WellKeyed(w'.lock) && Agree(ctx, w, w', src)
    ensures DesiredNames(w.lock, src) == DesiredNames(w'.lock, src)
    ensures src.skills.Wildcard? ==> (HasEntries(w.lock, src.source) <==> HasEntries(w'.lock, src.source))
    ensures Satisfiable(w.lock, src) <==> Satisfiable(w'.lock, src)
  {
    SameNames(w.lock, w'.lock, src);
  }

  lemma MatchAgree(ctx: Ctx, w: World, w': World, src: SourceSpec, n: Name, h: Hash)
    requires Agree(ctx, w, w', src) && n in Names(ctx, w, src)
    ensures AllMatch(ctx, w.disk, n, h) <==> AllMatch(ctx, w'.disk, n, h)
    ensures SomeGood(ctx, w.disk, n, h) <==> SomeGood(ctx, w'.disk, n, h)
  {
    hide Names;
    forall d ensures Matches(w.disk, d, n, h) <==> Matches(w'.disk, d, n, h) {
      assert SameAt(w.disk, w'.disk, Path(d, n));
    }
  }

  lemma DecisionsAgree(ctx: Ctx, w: World, w': World, src: SourceSpec)
    requires WellKeyed(w.lock) && WellKeyed(w'.lock) && Agree(ctx, w, w', src)
    ensures Fetches(ctx, w, src) <==> Fetches(ctx, w', src)
    ensures SourceFails(ctx, w, src) <==> SourceFails(ctx, w', src)
  {
    DesiredAgree(ctx, w, w', src);
    forall n | n in DesiredNames(w.lock, src) ensures Unservable(ctx, w, src, n) <==> Unservable(ctx, w', src, n) {
      var k := Key(src.source, n);
      NamesAreCovered(ctx, w, src, n);
      assert SameAt(w.lock, w'.lock, k);
      if k in w.lock { MatchAgree(ctx, w, w', src, n, w.lock[k].hash); }
    }
  }

  lemma WantsAgree(ctx: Ctx, w: World, w': World, src: SourceSpec)
    requires WellKeyed(w.lock) && WellKeyed(w'.lock) && Agree(ctx, w, w', src) && !SourceFails(ctx, w, src)
    ensures !SourceFails(ctx, w', src) && Wants(ctx, w, src) == Wants(ctx, w', src)
  {
    DecisionsAgree(ctx, w, w', src);
    DesiredAgree(ctx, w, w', src);
    forall n ensures SameAt(Wants(ctx, w, src), Wants(ctx, w', src), n) {
      if n in DesiredNames(w.lock, src) {
        NamesAreCovered(ctx, w, src, n);
        assert SameAt(w.lock, w'.lock, Key(src.source, n));
      }
    }
    assert Wants(ctx, w, src).Keys == Wants(ctx, w', src).Keys by {
      forall n ensures n in Wants(ctx, w, src) <==> n in Wants(ctx, w', src) {
        assert SameAt(Wants(ctx, w, src), Wants(ctx, w', src), n);
      }
    }
    forall n | n in Wants(ctx, w, src) ensures Wants(ctx, w, src)[n] == Wants(ctx, w', src)[n] {
      assert SameAt(Wants(ctx, w, src), Wants(ctx, w', src), n);
    }
  }

  lemma WantsAreNames(ctx: Ctx, w: World, src: SourceSpec)
    requires !SourceFails(ctx, w, src)
    ensures Wants(ctx, w, src).Keys <= Names(ctx, w, src)
  {
  }

  lemma SkillAgrees(ctx: Ctx, w: World, w': World, src: SourceSpec, n: Name)
    requires ctx.Valid() && WellKeyed(w.lock) && WellKeyed(w'.lock) && Agree(ctx, w, w', src) && !SourceFails(ctx, w, src)
    requires n in Wants(ctx, w, src)
    ensures var k, want := Key(src.source, n), Wants(ctx, w, src)[n];
      && SameAt(w.lock, w'.lock, k)
      && (Unchanged(ctx, w, k, want.tree) <==> Unchanged(ctx, w', k, want.tree))
      && (want.latest.None? ==> k in w.lock)
      && EntryAfter(ctx, w, k, want) == EntryAfter(ctx, w', k, want)
  {
    var k, want := Key(src.source, n), Wants(ctx, w, src)[n];
    WantsAreServable(ctx, w, src);
    WantsAreNames(ctx, w, src);
    NamesAreCovered(ctx, w, src, n);
    MatchAgree(ctx, w, w', src, n, Sha(want.tree));
    hide Wants, SourceFails, Names, AllMatch, WellKeyed;
    assert SameAt(w.lock, w'.lock, k);
  }

  /** Two worlds sort the wanted skills alike. */
  ghost predicate SameVerdicts(ctx: Ctx, w: World, w': World, source: Source, want: map<Name, Wanted>) {
    forall n :: n in want ==>
      && (Unchanged(ctx, w, Key(source, n), want[n].tree) <==> Unchanged(ctx, w', Key(source, n), want[n].tree))
      && (Key(source, n) in w.lock <==> Key(source, n) in w'.lock)
  }

  lemma VerdictsAgree(ctx: Ctx, w: World, w': World, src: SourceSpec)
    requires ctx.Valid() && WellKeyed(w.lock) && WellKeyed(w'.lock) && Agree(ctx, w, w', src) && !SourceFails(ctx, w, src)
    ensures SameVerdicts(ctx, w, w', src.source, Wants(ctx, w, src))
  {
    hide Wants, SourceFails, Unchanged, Agree, EntryAfter;
    forall n | n in Wants(ctx, w, src)
      ensures Unchanged(ctx, w, Key(src.source, n), Wants(ctx, w, src)[n].tree)
              <==> Unchanged(ctx, w', Key(src.source, n), Wants(ctx, w, src)[n].tree)
      ensures Key(src.source, n) in w.lock <==> Key(src.source, n) in w'.lock
    {
      SkillAgrees(ctx, w, w', src, n);
    }
  }

  lemma CountsAgree(ctx: Ctx, w: World, w': World, t: Tally, source: Source, want: map<Name, Wanted>)
    requires SameVerdicts(ctx, w, w', source, want)
    ensures Counted(ctx, w, t, source, want) == Counted(ctx, w', t, source, want)
  {
    hide Unchanged;
    assert UnchangedNames(ctx, w, source, want) == UnchangedNames(ctx, w', source, want);
    assert UpdatedNames(ctx, w, source, want) == UpdatedNames(ctx, w', source, want);
    assert InstalledNames(w, source, want) == InstalledNames(w', source, want);
  }

  lemma TallyAgrees(ctx: Ctx, w: World, w': World, t: Tally, src: SourceSpec)
    requires ctx.Valid() && WellKeyed(w.lock) && WellKeyed(w'.lock) && Agree(ctx, w, w', src) && !SourceFails(ctx, w, src)
    ensures !SourceFails(ctx, w', src) && SourceTally(ctx, w, t, src) == SourceTally(ctx, w', t, src)
  {
    hide Wants, SourceFails, Fetches, Counted, SameVerdicts, Agree, WellKeyed;
    WantsAgree(ctx, w, w', src);
    DecisionsAgree(ctx, w, w', src);
    VerdictsAgree(ctx, w, w', src);
    CountsAgree(ctx, w, w', t, src.source, Wants(ctx, w, src));
  }

  // -------------------------------------------------------- one source's effect

  /** In `w`, everything `src` wanted in `w0` is locked as planned and in every destination. */
  ghost predicate Settled(ctx: Ctx, w0: World, src: SourceSpec, w: World)
    requires ctx.Valid()
  {
    SourceFails(ctx, w0, src) ||
    (WantsAreServable(ctx, w0, src);
     forall n :: n in Wants(ctx, w0, src) ==> SettledSkill(ctx, w0, Key(src.source, n), Wants(ctx, w0, src)[n], w))
  }

  ghost predicate SettledSkill(ctx: Ctx, w0: World, k: Key, want: Wanted, w: World)
    requires ctx.Valid() && (want.latest.None? ==> k in w0.lock)
  {
    && k in w.lock && w.lock[k] == EntryAfter(ctx, w0, k, want) && w.lock[k].hash == Sha(want.tree)
    && AllMatch(ctx, w.disk, k.skill, Sha(want.tree))
  }

  lemma StepSettles(ctx: Ctx, w0: World, w: World, src: SourceSpec)
    requires ctx.Valid() && WellKeyed(w0.lock) && WellKeyed(w.lock) && Agree(ctx, w0, w, src) && !SourceFails(ctx, w0, src)
    ensures Servable(w, src.source, Wants(ctx, w0, src))
    ensures Settled(ctx, w0, src, ApplyWants(ctx, w, src.source, Wants(ctx, w0, src)))
  {
    hide Wants, SourceFails, Names, Agree, EntryAfter, WellKeyed, ApplyWants, SettledSkill, Servable;
    WantsAgree(ctx, w0, w, src);
    WantsAreServable(ctx, w, src);
    WantsAreServable(ctx, w0, src);
    forall n | n in Wants(ctx, w0, src)
      ensures SettledSkill(ctx, w0, Key(src.source, n), Wants(ctx, w0, src)[n],
                           ApplyWants(ctx, w, src.source, Wants(ctx, w0, src)))
    {
      SkillAgrees(ctx, w0, w, src, n);
      WantedHash(ctx, w0, src, n);
      ApplySettles(ctx, w0, w, src.source, Wants(ctx, w0, src), n);
    }
  }

  lemma ApplySettles(ctx: Ctx, w0: World, w: World, source: Source, want: map<Name, Wanted>, n: Name)
    requires ctx.Valid() && Servable(w, source, want) && n in want
    requires want[n].latest.None? ==> Key(source, n) in w0.lock && Key(source, n) in w.lock
    requires EntryAfter(ctx, w0, Key(source, n), want[n]) == EntryAfter(ctx, w, Key(source, n), want[n])
    requires EntryAfter(ctx, w0, Key(source, n), want[n]).hash == Sha(want[n].tree)
    ensures SettledSkill(ctx, w0, Key(source, n), want[n], ApplyWants(ctx, w, source, want))
  {
    hide EntryAfter;
    var w' := ApplyWants(ctx, w, source, want);
    assert Key(source, n) in KeysOf(source, want.Keys);
    forall d | d in ctx.dests ensures Matches(w'.disk, d, n, Sha(want[n].tree)) {
      assert Path(d, n) in PathsOf(ctx, want.Keys);
    }
  }

  lemma WantedHash(ctx: Ctx, w: World, src: SourceSpec, n: Name)
    requires ctx.Valid() && !SourceFails(ctx, w, src) && n in Wants(ctx, w, src)
    ensures var k, want := Key(src.source, n), Wants(ctx, w, src)[n];
      (want.latest.None? ==> k in w.lock) && EntryAfter(ctx, w, k, want).hash == Sha(want.tree)
  {
  }

  lemma StepKeepsKeyed(ctx: Ctx, w: World, src: SourceSpec)
    requires ctx.Valid() && WellKeyed(w.lock) && !SourceFails(ctx, w, src)
    ensures Servable(w, src.source, Wants(ctx, w, src))
    ensures WellKeyed(ApplyWants(ctx, w, src.source, Wants(ctx, w, src)).lock)
  {
    WantsAreServable(ctx, w, src);
    var want := Wants(ctx, w, src);
    hide Wants, SourceFails;
    var w' := ApplyWants(ctx, w, src.source, want);
    forall k | k in w'.lock
      ensures w'.lock[k].source == k.source && w'.lock[k].skill == k.skill && w'.lock[k].destination.name == k.skill
    {
      if k in KeysOf(src.source, want.Keys) {
        assert w'.lock[k] == EntryAfter(ctx, w, k, want[k.skill]);
      }
    }
  }

  // ------------------------------------------------------------ the invariant

  lemma NamesApart(ctx: Ctx, w: World, i: nat, j: nat, n: Name)
    requires Distinct(ctx, w) && i < |ctx.sources| && j < |ctx.sources| && i != j
    requires n in Names(ctx, w, ctx.sources[i])
    ensures n !in Names(ctx, w, ctx.sources[j])
  {
    hide Names, Involved, Covers;
    NameIsInvolved(ctx, w, i, n);
    NamesAreCovered(ctx, w, ctx.sources[i], n);
    CoveredApart(ctx.sources, i, j, Key(ctx.sources[i].source, n));
    if n in Names(ctx, w, ctx.sources[j]) {
      NamesAreCovered(ctx, w, ctx.sources[j], n);
      NameIsInvolved(ctx, w, j, n);
    }
  }

  lemma CoveredApart(sources: seq<SourceSpec>, i: nat, j: nat, k: Key)
    requires NoKeyTwice(sources) && i < |sources| && j < |sources| && i != j && Covers(sources[i], k)
    ensures !Covers(sources[j], k)
  {
  }

  lemma OthersUntouched(ctx: Ctx, w0: World, w: World, i: nat, j: nat)
    requires ctx.Valid() && Distinct(ctx, w0) && i < |ctx.sources| && j < |ctx.sources| && i != j
    requires !SourceFails(ctx, w0, ctx.sources[i])
    requires Servable(w, ctx.sources[i].source, Wants(ctx, w0, ctx.sources[i]))
    ensures var w' := ApplyWants(ctx, w, ctx.sources[i].source, Wants(ctx, w0, ctx.sources[i]));
      && (forall k: Key :: Covers(ctx.sources[j], k) ==> SameAt(w.lock, w'.lock, k))
      && (forall p: Path :: p.name in Names(ctx, w0, ctx.sources[j]) ==> SameAt(w.disk, w'.disk, p))
  {
    hide Wants, SourceFails, Names, NamesOnce, NoKeyTwice, Covers, ApplyWants, SameAt, Servable;
    var a := ctx.sources[i];
    var want := Wants(ctx, w0, a);
    WantsAreNames(ctx, w0, a);
    ApplyElsewhere(ctx, w, a.source, want);
    forall n | n in want ensures n !in Names(ctx, w0, ctx.sources[j]) && !Covers(ctx.sources[j], Key(a.source, n)) {
      NamesApart(ctx, w0, i, j, n);
      NamesAreCovered(ctx, w0, a, n);
      CoveredApart(ctx.sources, i, j, Key(a.source, n));
    }
    forall k: Key | Covers(ctx.sources[j], k) ensures !(k.source == a.source && k.skill in want) {
      assert k == Key(k.source, k.skill);
    }
  }

  /** Applying one source leaves other lock entries and other names' trees as they are. */
  lemma ApplyElsewhere(ctx: Ctx, w: World, source: Source, want: map<Name, Wanted>)
    requires ctx.Valid() && Servable(w, source, want)
    ensures var w' := ApplyWants(ctx, w, source, want);
      && (forall k: Key :: !(k.source == source && k.skill in want) ==> SameAt(w.lock, w'.lock, k))
      && (forall p: Path :: p.name !in want ==> SameAt(w.disk, w'.disk, p))
  {
    hide EntryAfter, ApplyWants;
    var w' := ApplyWants(ctx, w, source, want);
    forall k: Key | !(k.source == source && k.skill in want) ensures SameAt(w.lock, w'.lock, k) {
      ApplyAt(ctx, w, source, want, k, Path(ctx.dests[0], k.skill));
    }
    forall p: Path | p.name !in want ensures SameAt(w.disk, w'.disk, p) {
      ApplyAt(ctx, w, source, want, Key(source, p.name), p);
    }
  }

  lemma SettledStays(ctx: Ctx, w0: World, w: World, i: nat, j: nat)
    requires ctx.Valid() && Distinct(ctx, w0) && i < |ctx.sources| && j < |ctx.sources| && i != j
    requires !SourceFails(ctx, w0, ctx.sources[i])
    requires Servable(w, ctx.sources[i].source, Wants(ctx, w0, ctx.sources[i]))
    requires Settled(ctx, w0, ctx.sources[j], w)
    ensures Settled(ctx, w0, ctx.sources[j], ApplyWants(ctx, w, ctx.sources[i].source, Wants(ctx, w0, ctx.sources[i])))
  {
    var b := ctx.sources[j];
    var w' := ApplyWants(ctx, w, ctx.sources[i].source, Wants(ctx, w0, ctx.sources[i]));
    OthersUntouched(ctx, w0, w, i, j);
    if !SourceFails(ctx, w0, b) {
      WantsAreNames(ctx, w0, b);
      WantsAreServable(ctx, w0, b);
      forall n | n in Wants(ctx, w0, b) ensures SettledSkill(ctx, w0, Key(b.source, n), Wants(ctx, w0, b)[n], w') {
        assert SettledSkill(ctx, w0, Key(b.source, n), Wants(ctx, w0, b)[n], w);
        NamesAreCovered(ctx, w0, b, n);
        hide Wants, SourceFails, Names, EntryAfter, ApplyWants;
        assert SameAt(w.lock, w'.lock, Key(b.source, n));
        forall d | d in ctx.dests ensures Matches(w'.disk, d, n, Sha(Wants(ctx, w0, b)[n].tree)) {
          assert SameAt(w.disk, w'.disk, Path(d, n));
          assert Matches(w.disk, d, n, Sha(Wants(ctx, w0, b)[n].tree));
        }
      }
    }
  }

  /** After `i` sources of an applied run from `w0`, beside the preview of the same sources. */
  ghost predicate RunInv(ctx: Ctx, w0: World, i: nat, s: State, preview: State)
    requires ctx.Valid() && i <= |ctx.sources|
  {
    && WellKeyed(s.world.lock)
    && (forall j :: i <= j < |ctx.sources| ==> Agree(ctx, w0, s.world, ctx.sources[j]))
    && (forall j :: 0 <= j < i ==> Settled(ctx, w0, ctx.sources[j], s.world))
    && s.world.lock.Keys == w0.lock.Keys + s.desired
    && preview == State(w0, s.tally, s.desired)
    && s.desired == Asked(ctx, w0, i)
  }

  /** The keys the first `i` sources ask for. */
  ghost function Asked(ctx: Ctx, w0: World, i: nat): set<Key>
    requires i <= |ctx.sources|
  {
    if i == 0 then {}
    else
      var src := ctx.sources[i - 1];
      Asked(ctx, w0, i - 1) + if SourceFails(ctx, w0, src) then {} else KeysOf(src.source, Wants(ctx, w0, src).Keys)
  }

  lemma StepKeepsInv(ctx: Ctx, w0: World, i: nat, s: State, preview: State)
    requires ctx.Valid() && Distinct(ctx, w0) && WellKeyed(w0.lock) && i < |ctx.sources|
    requires RunInv(ctx, w0, i, s, preview)
    ensures RunInv(ctx, w0, i + 1, StepAtOnce(ctx, true, s, ctx.sources[i]), StepAtOnce(ctx, false, preview, ctx.sources[i]))
  {
    hide WellKeyed, Agree, Names, Wants, SourceFails, Distinct, Fetches, Settled, SourceTally, EntryAfter, Servable, ApplyWants;
    var src := ctx.sources[i];
    assert Agree(ctx, w0, s.world, src);
    DecisionsAgree(ctx, w0, s.world, src);
    if SourceFails(ctx, w0, src) {
      FailedIsSettled(ctx, w0, src, s.world);
    } else {
      var w' := StepAtOnce(ctx, true, s, src).world;
      WantsAgree(ctx, w0, s.world, src);
      TallyAgrees(ctx, w0, s.world, s.tally, src);
      StepKeepsKeyed(ctx, s.world, src);
      StepSettles(ctx, w0, s.world, src);
      ApplyAddsKeys(ctx, s.world, src.source, Wants(ctx, w0, src));
      forall j | i + 1 <= j < |ctx.sources| ensures Agree(ctx, w0, w', ctx.sources[j]) {
        OthersUntouched(ctx, w0, s.world, i, j);
        AgreeStays(ctx, w0, s.world, w', ctx.sources[j]);
      }
      forall j | 0 <= j < i ensures Settled(ctx, w0, ctx.sources[j], w') {
        SettledStays(ctx, w0, s.world, i, j);
      }
    }
  }

  lemma ApplyAddsKeys(ctx: Ctx, w: World, source: Source, want: map<Name, Wanted>)
    requires ctx.Valid() && Servable(w, source, want)
    ensures ApplyWants(ctx, w, source, want).lock.Keys == w.lock.Keys + KeysOf(source, want.Keys)
  {
  }

  lemma FailedIsSettled(ctx: Ctx, w0: World, src: SourceSpec, w: World)
    requires ctx.Valid() && SourceFails(ctx, w0, src)
    ensures Settled(ctx, w0, src, w)
  {
  }

  lemma AgreeStays(ctx: Ctx, w0: World, w: World, w': World, src: SourceSpec)
    requires Agree(ctx, w0, w, src)
    requires forall k: Key :: Covers(src, k) ==> SameAt(w.lock, w'.lock, k)
    requires forall p: Path :: p.name in Names(ctx, w0, src) ==> SameAt(w.disk, w'.disk, p)
    ensures Agree(ctx, w0, w', src)
  {
    hide Names, Covers;
    forall k: Key | Covers(src, k) ensures SameAt(w0.lock, w'.lock, k) {
      assert SameAt(w0.lock, w.lock, k) && SameAt(w.lock, w'.lock, k);
    }
    forall p: Path | p.name in Names(ctx, w0, src) ensures SameAt(w0.disk, w'.disk, p) {
      assert SameAt(w0.disk, w.disk, p) && SameAt(w.disk, w'.disk, p);
    }
  }

  lemma AgreeSelf(ctx: Ctx, w: World, src: SourceSpec)
    ensures Agree(ctx, w, w, src)
  {
  }

  lemma {:induction false} RunKeepsInv(ctx: Ctx, w0: World, i: nat)
    requires ctx.Valid() && Distinct(ctx, w0) && WellKeyed(w0.lock) && i <= |ctx.sources|
    ensures RunInv(ctx, w0, i, RunAtOnce(ctx, true, Start(w0), i), RunAtOnce(ctx, false, Start(w0), i))
  {
    hide WellKeyed, Agree, Distinct, Settled, StepAtOnce;
    if i == 0 {
      forall j | 0 <= j < |ctx.sources| ensures Agree(ctx, w0, w0, ctx.sources[j]) {
        AgreeSelf(ctx, w0, ctx.sources[j]);
      }
    } else {
      RunKeepsInv(ctx, w0, i - 1);
      StepKeepsInv(ctx, w0, i - 1, RunAtOnce(ctx, true, Start(w0), i - 1), RunAtOnce(ctx, false, Start(w0), i - 1));
    }
  }

  // ---------------------------------------------------------------- promises

  lemma PruneCountsAlike(ctx: Ctx, w: World, s: State, preview: State)
    requires ctx.Valid() && RunInv(ctx, w, |ctx.sources|, s, preview)
    ensures Prune(false, preview).world == w
    ensures Prune(false, preview).tally == Prune(true, s).tally && Prune(false, preview).desired == Prune(true, s).desired
  {
    hide WellKeyed, Agree, Settled, Asked, PruneWorld;
    assert (w.lock.Keys + s.desired) - s.desired == w.lock.Keys - s.desired;
  }

  /** A preview writes nothing and reports exactly the counts of the applied run. */
  lemma PreviewAtOnce(ctx: Ctx, w: World)
    requires ctx.Valid() && Distinct(ctx, w) && WellKeyed(w.lock)
    ensures SyncAtOnce(ctx, false, w).world == w
    ensures SyncAtOnce(ctx, false, w).tally == SyncAtOnce(ctx, true, w).tally
    ensures SyncAtOnce(ctx, false, w).desired == SyncAtOnce(ctx, true, w).desired
  {
    hide WellKeyed, Agree, Distinct, Settled, RunAtOnce, RunInv, Prune;
    var n := |ctx.sources|;
    RunKeepsInv(ctx, w, n);
    PruneCountsAlike(ctx, w, RunAtOnce(ctx, true, Start(w), n), RunAtOnce(ctx, false, Start(w), n));
  }

  lemma {:induction false} AskedHas(ctx: Ctx, w: World, i: nat, j: nat, n: Name)
    requires j < i <= |ctx.sources| && !SourceFails(ctx, w, ctx.sources[j]) && n in Wants(ctx, w, ctx.sources[j])
    ensures Key(ctx.sources[j].source, n) in Asked(ctx, w, i)
  {
    hide SourceFails, Wants;
    if j < i - 1 { AskedHas(ctx, w, i - 1, j, n); }
  }

  lemma SettledSurvives(ctx: Ctx, w0: World, s: State, j: nat)
    requires ctx.Valid() && j < |ctx.sources| && s.desired == Asked(ctx, w0, |ctx.sources|)
    requires Settled(ctx, w0, ctx.sources[j], s.world)
    requires var w' := PruneWorld(s);
      && (forall k :: k in s.desired ==> SameAt(s.world.lock, w'.lock, k))
      && (forall k, d :: k in s.desired ==> SameAt(s.world.disk, w'.disk, Path(d, k.skill)))
    ensures Settled(ctx, w0, ctx.sources[j], PruneWorld(s))
  {
    var src, w' := ctx.sources[j], PruneWorld(s);
    if !SourceFails(ctx, w0, src) {
      WantsAreServable(ctx, w0, src);
      var want := Wants(ctx, w0, src);
      forall n | n in want ensures SettledSkill(ctx, w0, Key(src.source, n), want[n], w') {
        var k := Key(src.source, n);
        AskedHas(ctx, w0, |ctx.sources|, j, n);
        assert SettledSkill(ctx, w0, k, want[n], s.world);
        hide SourceFails, Wants, EntryAfter, PruneWorld, Asked;
        assert SameAt(s.world.lock, w'.lock, k);
        forall d | d in ctx.dests ensures Matches(w'.disk, d, n, Sha(want[n].tree)) {
          assert SameAt(s.world.disk, w'.disk, Path(d, n));
          assert Matches(s.world.disk, d, n, Sha(want[n].tree));
        }
      }
    }
  }

  /** After an applied run without failures: the lock holds exactly what was asked for, every source is settled. */
  lemma SettlesAtOnce(ctx: Ctx, w: World)
    requires ctx.Valid() && Distinct(ctx, w) && WellKeyed(w.lock)
    requires SyncAtOnce(ctx, true, w).tally.failed == 0
    ensures var r := SyncAtOnce(ctx, true, w);
      && r.desired == Asked(ctx, w, |ctx.sources|) && r.world.lock.Keys == r.desired && WellKeyed(r.world.lock)
      && forall j :: 0 <= j < |ctx.sources| ==> Settled(ctx, w, ctx.sources[j], r.world)
  {
    hide Agree, NoKeyTwice, NamesOnce, Settled, RunAtOnce, RunSources, WellKeyed, Asked, PruneWorld, AllTidy, SoundInv, AllMatch;
    var n := |ctx.sources|;
    RunKeepsInv(ctx, w, n);
    var s := RunAtOnce(ctx, true, Start(w), n);
    DistinctIsTidy(ctx, w);
    RunIsAtOnce(ctx, true, Start(w), n);
    RunKeepsSound(ctx, w, n);
    PruneSpares(ctx, w, s);
    forall j | 0 <= j < n ensures Settled(ctx, w, ctx.sources[j], PruneWorld(s)) {
      SettledSurvives(ctx, w, s, j);
    }
  }

  // ------------------------------------------------------- without failures

  /** The state a failure-free run from `w` leaves behind. */
  ghost predicate SyncedFrom(ctx: Ctx, w: World, w1: World)
    requires ctx.Valid()
  {
    && Distinct(ctx, w) && WellKeyed(w.lock) && WellKeyed(w1.lock)
    && w1.lock.Keys == Asked(ctx, w, |ctx.sources|)
    && (forall j :: 0 <= j < |ctx.sources| ==> !SourceFails(ctx, w, ctx.sources[j]))
    && (forall j :: 0 <= j < |ctx.sources| ==> Settled(ctx, w, ctx.sources[j], w1))
  }

  lemma {:induction false} NoFailures(ctx: Ctx, w: World, i: nat)
    requires ctx.Valid() && Distinct(ctx, w) && WellKeyed(w.lock) && i <= |ctx.sources|
    requires RunAtOnce(ctx, true, Start(w), i).tally.failed == 0
    ensures forall j :: 0 <= j < i ==> !SourceFails(ctx, w, ctx.sources[j])
  {
    hide WellKeyed, Agree, Distinct, Settled, SourceFails, Wants, SourceTally, ApplyWants;
    if i > 0 {
      var s := RunAtOnce(ctx, true, Start(w), i - 1);
      RunKeepsInv(ctx, w, i - 1);
      assert Agree(ctx, w, s.world, ctx.sources[i - 1]);
      DecisionsAgree(ctx, w, s.world, ctx.sources[i - 1]);
      if !SourceFails(ctx, s.world, ctx.sources[i - 1]) {
        TallyOnlyGrows(ctx, s.world, s.tally, ctx.sources[i - 1]);
      }
      NoFailures(ctx, w, i - 1);
    }
  }

  lemma TallyOnlyGrows(ctx: Ctx, w: World, t: Tally, src: SourceSpec)
    requires !SourceFails(ctx, w, src)
    ensures SourceTally(ctx, w, t, src).failed == t.failed && SourceTally(ctx, w, t, src).removed == t.removed
  {
  }

  lemma RunLeavesSynced(ctx: Ctx, w: World)
    requires ctx.Valid() && Distinct(ctx, w) && WellKeyed(w.lock) && SyncAtOnce(ctx, true, w).tally.failed == 0
    ensures SyncedFrom(ctx, w, SyncAtOnce(ctx, true, w).world)
  {
    hide SyncAtOnce, RunAtOnce, Distinct, WellKeyed, Asked, Settled, SourceFails;
    SettlesAtOnce(ctx, w);
    FailureShows(ctx, w);
    NoFailures(ctx, w, |ctx.sources|);
  }

  lemma FailureShows(ctx: Ctx, w: World)
    requires ctx.Valid()
    ensures SyncAtOnce(ctx, true, w).tally.failed == RunAtOnce(ctx, true, Start(w), |ctx.sources|).tally.failed
  {
  }

  // ------------------------------------------ one by one is the same as at once

  ghost function Only<V>(m: map<Name, V>, names: set<Name>): map<Name, V> {
    map n | n in m && n in names :: m[n]
  }

  /** Part of a source done: the skills in `done`, judged against the world the source started from. */
  ghost function PartWorld(ctx: Ctx, apply: bool, w: World, source: Source, want: map<Name, Wanted>, done: set<Name>): World
    requires ctx.Valid() && Servable(w, source, want)
  {
    if apply then ApplyWants(ctx, w, source, Only(want, done)) else w
  }

  /** Doing the skills of a source one after the other is the same as doing them at once. */
  lemma OneMoreSkill(ctx: Ctx, apply: bool, w: World, t: Tally, source: Source, want: map<Name, Wanted>, done: set<Name>, n: Name)
    requires ctx.Valid() && Servable(w, source, want) && n in want && n !in done
    ensures var part, k := PartWorld(ctx, apply, w, source, want, done), Key(source, n);
      && (want[n].latest.None? ==> k in part.lock)
      && (apply ==> ApplyOne(ctx, part, k, want[n]) == PartWorld(ctx, apply, w, source, want, done + {n}))
      && CountOne(ctx, part, Counted(ctx, w, t, source, Only(want, done)), k, want[n].tree)
         == Counted(ctx, w, t, source, Only(want, done + {n}))
  {
    UntouchedYet(ctx, apply, w, source, want, done, n);
    if apply { OneMoreWorld(ctx, w, source, want, done, n); }
    OneMoreCount(ctx, w, t, source, want, done, n);
    hide Unchanged, EntryAfter, Counted, ApplyWants, ApplyOne, Only;
  }

  lemma UntouchedYet(ctx: Ctx, apply: bool, w: World, source: Source, want: map<Name, Wanted>, done: set<Name>, n: Name)
    requires ctx.Valid() && Servable(w, source, want) && n in want && n !in done
    ensures var part, k := PartWorld(ctx, apply, w, source, want, done), Key(source, n);
      && SameAt(w.lock, part.lock, k)
      && (Unchanged(ctx, part, k, want[n].tree) <==> Unchanged(ctx, w, k, want[n].tree))
      && (want[n].latest.None? ==> k in w.lock && k in part.lock)
      && EntryAfter(ctx, part, k, want[n]) == EntryAfter(ctx, w, k, want[n])
  {
    var part, k := PartWorld(ctx, apply, w, source, want, done), Key(source, n);
    forall d ensures SameAt(w.disk, part.disk, Path(d, n)) {
    }
    forall d, h ensures Matches(w.disk, d, n, h) <==> Matches(part.disk, d, n, h) {
      assert SameAt(w.disk, part.disk, Path(d, n));
    }
  }

  lemma ApplyAt(ctx: Ctx, w: World, source: Source, want: map<Name, Wanted>, k: Key, p: Path)
    requires ctx.Valid() && Servable(w, source, want)
    ensures var w' := ApplyWants(ctx, w, source, want);
      && (if k.source == source && k.skill in want then k in w'.lock && w'.lock[k] == EntryAfter(ctx, w, k, want[k.skill])
          else SameAt(w.lock, w'.lock, k))
      && (if p.dest in ctx.dests && p.name in want then p in w'.disk && w'.disk[p] == want[p.name].tree
          else SameAt(w.disk, w'.disk, p))
  {
    hide EntryAfter;
  }

  lemma OneMoreWorld(ctx: Ctx, w: World, source: Source, want: map<Name, Wanted>, done: set<Name>, n: Name)
    requires ctx.Valid() && Servable(w, source, want) && n in want && n !in done
    requires var part, k := PartWorld(ctx, true, w, source, want, done), Key(source, n);
      && (want[n].latest.None? ==> k in part.lock && k in w.lock)
      && EntryAfter(ctx, part, k, want[n]) == EntryAfter(ctx, w, k, want[n])
    ensures var part, k := PartWorld(ctx, true, w, source, want, done), Key(source, n);
      ApplyOne(ctx, part, k, want[n]) == PartWorld(ctx, true, w, source, want, done + {n})
  {
    hide EntryAfter, ApplyWants, ApplyOne;
    var part, k := PartWorld(ctx, true, w, source, want, done), Key(source, n);
    var one, all := ApplyOne(ctx, part, k, want[n]), PartWorld(ctx, true, w, source, want, done + {n});
    forall x ensures SameAt(one.lock, all.lock, x) {
      var p := Path(ctx.dests[0], n);
      ApplyAt(ctx, w, source, Only(want, done), x, p);
      ApplyAt(ctx, w, source, Only(want, done + {n}), x, p);
      ApplyOneAt(ctx, part, k, want[n], x, p);
    }
    forall p ensures SameAt(one.disk, all.disk, p) {
      ApplyAt(ctx, w, source, Only(want, done), k, p);
      ApplyAt(ctx, w, source, Only(want, done + {n}), k, p);
      ApplyOneAt(ctx, part, k, want[n], k, p);
    }
    SameMaps(one.lock, all.lock);
    SameMaps(one.disk, all.disk);
  }

  lemma OneMoreVerdict(ctx: Ctx, w: World, source: Source, want: map<Name, Wanted>, done: set<Name>, n: Name)
    requires n in want && n !in done
    ensures var a, b := Only(want, done), Only(want, done + {n});
      var same, locked := Unchanged(ctx, w, Key(source, n), want[n].tree), Key(source, n) in w.lock;
      && UnchangedNames(ctx, w, source, b) == UnchangedNames(ctx, w, source, a) + (if same then {n} else {})
      && UpdatedNames(ctx, w, source, b) == UpdatedNames(ctx, w, source, a) + (if locked && !same then {n} else {})
      && InstalledNames(w, source, b) == InstalledNames(w, source, a) + (if locked then {} else {n})
      && n !in UnchangedNames(ctx, w, source, a) && n !in UpdatedNames(ctx, w, source, a) && n !in InstalledNames(w, source, a)
  {
    hide Unchanged;
  }

  lemma OneMoreCount(ctx: Ctx, w: World, t: Tally, source: Source, want: map<Name, Wanted>, done: set<Name>, n: Name)
    requires n in want && n !in done
    ensures CountOne(ctx, w, Counted(ctx, w, t, source, Only(want, done)), Key(source, n), want[n].tree)
            == Counted(ctx, w, t, source, Only(want, done + {n}))
  {
    hide Unchanged, UnchangedNames, UpdatedNames, InstalledNames, Only;
    OneMoreVerdict(ctx, w, source, want, done, n);
    UnchangedIsLocked(ctx, w, Key(source, n), want[n].tree);
  }

  lemma UnchangedIsLocked(ctx: Ctx, w: World, k: Key, tree: Tree)
    ensures Unchanged(ctx, w, k, tree) ==> k in w.lock
  {
  }

  ghost function PartState(ctx: Ctx, apply: bool, s: State, source: Source, want: map<Name, Wanted>, done: set<Name>): State
    requires ctx.Valid() && Servable(s.world, source, want)
  {
    State(PartWorld(ctx, apply, s.world, source, want, done),
          Counted(ctx, s.world, s.tally, source, Only(want, done)),
          s.desired + KeysOf(source, done))
  }

  lemma PartNext(ctx: Ctx, apply: bool, s: State, source: Source, want: map<Name, Wanted>, done: set<Name>, n: Name)
    requires ctx.Valid() && Servable(s.world, source, want) && n in want && n !in done
    ensures var part, k := PartState(ctx, apply, s, source, want, done), Key(source, n);
      && (want[n].latest.None? ==> k in part.world.lock)
      && ProcessedOne(ctx, apply, part, k, want[n]) == PartState(ctx, apply, s, source, want, done + {n})
  {
    hide Unchanged, EntryAfter, Counted, ApplyWants, ApplyOne, Only, CountOne;
    OneMoreSkill(ctx, apply, s.world, s.tally, source, want, done, n);
    assert KeysOf(source, done + {n}) == KeysOf(source, done) + {Key(source, n)};
  }

  lemma ApplyNothing(ctx: Ctx, w: World, source: Source)
    requires ctx.Valid()
    ensures ApplyWants(ctx, w, source, map[]) == w
  {
    hide EntryAfter, ApplyWants;
    var w' := ApplyWants(ctx, w, source, map[]);
    forall k: Key ensures SameAt(w'.lock, w.lock, k) {
      ApplyAt(ctx, w, source, map[], k, Path(ctx.dests[0], k.skill));
    }
    forall p: Path ensures SameAt(w'.disk, w.disk, p) {
      ApplyAt(ctx, w, source, map[], Key(source, p.name), p);
    }
    SameMaps(w'.lock, w.lock);
    SameMaps(w'.disk, w.disk);
  }

  lemma CountNothing(ctx: Ctx, w: World, t: Tally, source: Source)
    ensures Counted(ctx, w, t, source, map[]) == t
  {
    hide Unchanged;
    assert UnchangedNames(ctx, w, source, map[]) == {} && UpdatedNames(ctx, w, source, map[]) == {};
    assert InstalledNames(w, source, map[]) == {};
  }

  lemma PartStart(ctx: Ctx, apply: bool, s: State, source: Source, want: map<Name, Wanted>)
    requires ctx.Valid() && Servable(s.world, source, want)
    ensures PartState(ctx, apply, s, source, want, {}) == s
  {
    hide EntryAfter, Unchanged, ApplyWants, Counted;
    assert Only(want, {}) == map[];
    assert KeysOf(source, {}) == {};
    ApplyNothing(ctx, s.world, source);
    CountNothing(ctx, s.world, s.tally, source);
  }

  lemma PartAll(ctx: Ctx, apply: bool, s: State, source: Source, want: map<Name, Wanted>, done: set<Name>)
    requires ctx.Valid() && Servable(s.world, source, want) && done == want.Keys
    ensures PartState(ctx, apply, s, source, want, done) ==
      State(if apply then ApplyWants(ctx, s.world, source, want) else s.world,
            Counted(ctx, s.world, s.tally, source, want), s.desired + KeysOf(source, want.Keys))
  {
    hide EntryAfter, Unchanged, ApplyWants, Counted;
    assert Only(want, done) == want;
  }

  // ---------------------------------------------- the tasks of a source, at once

  /** The tasks are those of the map, each name once. */
  ghost predicate Enumerates(tasks: seq<Task>, want: map<Name, Wanted>) {
    && (forall i, j :: 0 <= i < j < |tasks| ==> tasks[i].name != tasks[j].name)
    && (forall i :: 0 <= i < |tasks| ==> tasks[i].name in want && want[tasks[i].name] == tasks[i].want)
    && (forall n :: n in want ==> Task(n, want[n]) in tasks)
  }

  ghost function DoneNames(tasks: seq<Task>): set<Name> {
    set t | t in tasks :: t.name
  }

  lemma OneMoreDone(tasks: seq<Task>, i: nat)
    requires i < |tasks| && forall a, b :: 0 <= a < b < |tasks| ==> tasks[a].name != tasks[b].name
    ensures DoneNames(tasks[..i + 1]) == DoneNames(tasks[..i]) + {tasks[i].name}
    ensures tasks[i].name !in DoneNames(tasks[..i])
  {
    TakeOneMore(tasks, i);
    forall t | t in tasks[..i] ensures t.name != tasks[i].name {
      var j :| 0 <= j < i && tasks[..i][j] == t;
      assert tasks[j] == t;
    }
    assert tasks[i] in tasks[..i + 1];
  }

  lemma {:induction false} AllIsPart(ctx: Ctx, apply: bool, s: State, source: Source, tasks: seq<Task>, want: map<Name, Wanted>, i: nat)
    requires ctx.Valid() && Servable(s.world, source, want) && TasksServable(s.world.lock, source, tasks)
    requires Enumerates(tasks, want) && i <= |tasks|
    ensures ProcessAll(ctx, apply, s, source, tasks[..i]) == PartState(ctx, apply, s, source, want, DoneNames(tasks[..i]))
  {
    hide PartState, ProcessedOne, Servable;
    if i == 0 {
      PartStart(ctx, apply, s, source, want);
      assert DoneNames(tasks[..0]) == {};
    } else {
      AllIsPart(ctx, apply, s, source, tasks, want, i - 1);
      OneMoreDone(tasks, i - 1);
      PartNext(ctx, apply, s, source, want, DoneNames(tasks[..i - 1]), tasks[i - 1].name);
      assert tasks[..i][..i - 1] == tasks[..i - 1];
    }
  }

  lemma DoneAll(tasks: seq<Task>, want: map<Name, Wanted>)
    requires Enumerates(tasks, want)
    ensures DoneNames(tasks) == want.Keys
  {
    forall n ensures n in DoneNames(tasks) <==> n in want {
      if n in want { assert Task(n, want[n]) in tasks; }
    }
  }

  /** Tasks with different names come to the same whatever their order: what the map asks for, at once. */
  lemma AllAtOnce(ctx: Ctx, apply: bool, s: State, source: Source, tasks: seq<Task>, want: map<Name, Wanted>)
    requires ctx.Valid() && Servable(s.world, source, want) && TasksServable(s.world.lock, source, tasks)
    requires Enumerates(tasks, want)
    ensures ProcessAll(ctx, apply, s, source, tasks) ==
      State(if apply then ApplyWants(ctx, s.world, source, want) else s.world,
            Counted(ctx, s.world, s.tally, source, want), s.desired + KeysOf(source, want.Keys))
  {
    hide PartState, ProcessedOne, ProcessAll, Servable, Enumerates, ApplyWants, Counted, DoneNames;
    AllIsPart(ctx, apply, s, source, tasks, want, |tasks|);
    assert tasks[..|tasks|] == tasks;
    DoneAll(tasks, want);
    PartAll(ctx, apply, s, source, want, DoneNames(tasks));
  }

  // ---- a tidy source's tasks are what it wants

  lemma {:induction false} ListedTask(items: seq<Selector>, f: Fetched, s: Selector)
    requires f.Fetched? && s in items && Resolve(f, s).Some?
    ensures Task(s.name, Latest(Resolve(f, s).value, f)) in ListTasks(items, f)
  {
    hide Resolve;
    var n := |items| - 1;
    if s != items[n] {
      var i :| 0 <= i < |items| && items[i] == s;
      assert items[..n][i] == s;
      ListedTask(items[..n], f, s);
    }
  }

  lemma {:induction false} ListedApart(items: seq<Selector>, f: Fetched)
    requires f.Fetched? && NoDupNames(items)
    ensures forall i, j :: 0 <= i < j < |ListTasks(items, f)| ==> ListTasks(items, f)[i].name != ListTasks(items, f)[j].name
  {
    hide Resolve;
    if items != [] {
      var n := |items| - 1;
      ListedApart(items[..n], f);
      forall t | t in ListTasks(items[..n], f) ensures t.name != items[n].name {
        ListTaskIsListed(items[..n], f, t);
        var s :| s in items[..n] && t.name == s.name;
        var i :| 0 <= i < n && items[i] == s;
      }
    }
  }

  lemma SelectorIs(items: seq<Selector>, s: Selector)
    requires NoDupNames(items) && s in items
    ensures s.name in ListNames(items) && SelectorOf(items, s.name) == s
  {
  }

  lemma ListEnumerates(src: SourceSpec, f: Fetched)
    requires f.Fetched? && src.skills.List? && NoDupNames(src.skills.items)
    ensures Enumerates(ListTasks(src.skills.items, f), WantsOf(src, f))
  {
    hide Resolve, NoDupNames, ListTasks;
    var items, tasks, want := src.skills.items, ListTasks(src.skills.items, f), WantsOf(src, f);
    ListedApart(items, f);
    forall i | 0 <= i < |tasks| ensures tasks[i].name in want && want[tasks[i].name] == tasks[i].want {
      assert tasks[i] in tasks;
      ListTaskIsListed(items, f, tasks[i]);
      var s :| s in items && Resolve(f, s).Some? && tasks[i] == Task(s.name, Latest(Resolve(f, s).value, f));
      SelectorIs(items, s);
    }
    forall n | n in want ensures Task(n, want[n]) in tasks {
      ListedTask(items, f, SelectorOf(items, n));
    }
  }

  /** What a fetched source is wanted for. */
  ghost function WantsOf(src: SourceSpec, f: Fetched): map<Name, Wanted>
    requires f.Fetched?
  {
    var sel := Selected(src, f);
    map n | n in sel :: Latest(sel[n], f)
  }

  lemma AvailableEnumerates(names: seq<Name>, f: Fetched)
    requires f.Fetched? && NoDup(names) && forall n :: n in names <==> n in f.available
    ensures Enumerates(AvailableTasks(names, f), map n | n in f.available :: Latest(f.available[n], f))
  {
    var tasks := AvailableTasks(names, f);
    forall n | n in f.available ensures Task(n, Latest(f.available[n], f)) in tasks {
      var i :| 0 <= i < |names| && names[i] == n;
      assert tasks[i] == Task(n, Latest(f.available[n], f));
    }
  }

  lemma FetchEnumerates(src: SourceSpec, f: Fetched)
    requires f.Fetched? && TidySource(src)
    ensures Enumerates(FetchTasks(src, f), WantsOf(src, f))
  {
    hide Enumerates, ListTasks, AvailableTasks;
    if src.skills.List? {
      ListEnumerates(src, f);
    } else {
      ListedIsIn(f.available.Keys);
      AvailableEnumerates(Listing(f.available.Keys), f);
      assert WantsOf(src, f) == map n | n in f.available :: Latest(f.available[n], f);
    }
  }

  ghost function LockedWants(lock: Lock, source: Source, names: set<Name>): map<Name, Wanted> {
    map n | n in names && Key(source, n) in lock :: Wanted(lock[Key(source, n)].hash.of, None)
  }

  lemma {:induction false} LockEnumerates(lock: Lock, source: Source, names: seq<Name>)
    requires NoDup(names)
    ensures Enumerates(LockTasks(lock, source, names), LockedWants(lock, source, ToSet(names)))
  {
    if names != [] {
      var n := |names| - 1;
      var init, x := names[..n], names[n];
      LockEnumerates(lock, source, init);
      assert names == init + [x];
      assert ToSet(names) == ToSet(init) + {x} && x !in ToSet(init);
      var tasks, want := LockTasks(lock, source, names), LockedWants(lock, source, ToSet(names));
      var before := LockedWants(lock, source, ToSet(init));
      if Key(source, x) in lock {
        assert want == before[x := want[x]];
        assert tasks[|tasks| - 1] == Task(x, want[x]);
      } else {
        assert want == before;
      }
    }
  }

  lemma NameSeqIsOnce(lock: Lock, src: SourceSpec)
    requires TidySource(src)
    ensures NoDup(NameSeq(lock, src)) && ToSet(NameSeq(lock, src)) == DesiredNames(lock, src)
  {
    if src.skills.List? { ItemNamesAre(src.skills.items); }
  }

  lemma ItemNamesAre(items: seq<Selector>)
    ensures ToSet(ItemNames(items)) == ListNames(items)
    ensures NoDupNames(items) ==> NoDup(ItemNames(items))
  {
    var names := ItemNames(items);
    forall n ensures n in names <==> n in ListNames(items) {
      if n in names {
        var j :| 0 <= j < |names| && names[j] == n;
        assert items[j] in items;
      }
      if n in ListNames(items) {
        var s :| s in items && s.name == n;
        var j :| 0 <= j < |items| && items[j] == s;
        assert names[j] == n;
      }
    }
  }

  lemma TasksAreWants(ctx: Ctx, w: World, src: SourceSpec)
    requires !SourceFails(ctx, w, src) && TidySource(src)
    ensures Enumerates(Tasks(ctx, w, src), Wants(ctx, w, src))
  {
    hide Enumerates, Fetches, NoDup, DesiredNames, NameSeq, FetchTasks, LockTasks, TidySource;
    if Fetches(ctx, w, src) {
      FetchEnumerates(src, ctx.fetch(src));
      assert Wants(ctx, w, src) == WantsOf(src, ctx.fetch(src));
    } else {
      NameSeqIsOnce(w.lock, src);
      LockEnumerates(w.lock, src.source, NameSeq(w.lock, src));
      assert Wants(ctx, w, src) == LockedWants(w.lock, src.source, DesiredNames(w.lock, src));
    }
  }

  /** A source whose list names no skill twice. */
  lemma StepIsAtOnce(ctx: Ctx, apply: bool, s: State, src: SourceSpec)
    requires ctx.Valid() && TidySource(src)
    ensures StepSource(ctx, apply, s, src) == StepAtOnce(ctx, apply, s, src)
  {
    hide SourceFails, Tasks, Wants, Fetches, ApplyWants, TidySource, ProcessAll, Broken, UnchangedNames, UpdatedNames, InstalledNames,
      Enumerates;
    if !SourceFails(ctx, s.world, src) {
      WantsAreServable(ctx, s.world, src);
      TasksAreServable(ctx, s.world, src);
      TasksAreWants(ctx, s.world, src);
      AllAtOnce(ctx, apply, WithBroken(ctx, s.world, s, src), src.source, Tasks(ctx, s.world, src), Wants(ctx, s.world, src));
    }
  }

  ghost predicate AllTidy(sources: seq<SourceSpec>) {
    forall i :: 0 <= i < |sources| ==> TidySource(sources[i])
  }

  lemma {:induction false} RunIsAtOnce(ctx: Ctx, apply: bool, s: State, i: nat)
    requires ctx.Valid() && AllTidy(ctx.sources) && i <= |ctx.sources|
    ensures RunSources(ctx, apply, s, i) == RunAtOnce(ctx, apply, s, i)
  {
    hide StepSource, StepAtOnce, TidySource;
    if i > 0 {
      RunIsAtOnce(ctx, apply, s, i - 1);
      StepIsAtOnce(ctx, apply, RunSources(ctx, apply, s, i - 1), ctx.sources[i - 1]);
    }
  }

  /** A whole sync of tidy lists. */
  lemma SyncIsAtOnce(ctx: Ctx, apply: bool, w: World)
    requires ctx.Valid() && AllTidy(ctx.sources)
    ensures SyncSkills(ctx, apply, w) == SyncAtOnce(ctx, apply, w)
  {
    hide RunSources, RunAtOnce, AllTidy, Prune;
    RunIsAtOnce(ctx, apply, Start(w), |ctx.sources|);
  }

  lemma DistinctIsTidy(ctx: Ctx, w: World)
    requires Distinct(ctx, w)
    ensures AllTidy(ctx.sources)
  {
  }

  // ---------------------------------------------------------------- promises

  /** A preview writes nothing and reports exactly the counts of the applied run. */
  lemma PreviewIsTruthful(ctx: Ctx, w: World)
    requires ctx.Valid() && Distinct(ctx, w) && WellKeyed(w.lock)
    ensures SyncSkills(ctx, false, w).world == w
    ensures SyncSkills(ctx, false, w).tally == SyncSkills(ctx, true, w).tally
    ensures SyncSkills(ctx, false, w).desired == SyncSkills(ctx, true, w).desired
  {
    hide SyncSkills, SyncAtOnce, Distinct, WellKeyed, AllTidy;
    DistinctIsTidy(ctx, w);
    SyncIsAtOnce(ctx, false, w);
    SyncIsAtOnce(ctx, true, w);
    PreviewAtOnce(ctx, w);
  }

  /** After an applied run without failures: the lock holds exactly what was asked for, every source is settled. */
  lemma SyncSettles(ctx: Ctx, w: World)
    requires ctx.Valid() && Distinct(ctx, w) && WellKeyed(w.lock)
    requires SyncSkills(ctx, true, w).tally.failed == 0
    ensures var r := SyncSkills(ctx, true, w);
      && r.desired == Asked(ctx, w, |ctx.sources|) && r.world.lock.Keys == r.desired && WellKeyed(r.world.lock)
      && SyncedFrom(ctx, w, r.world)
  {
    hide SyncSkills, SyncAtOnce, Distinct, WellKeyed, AllTidy, SyncedFrom, Asked, Settled;
    DistinctIsTidy(ctx, w);
    SyncIsAtOnce(ctx, true, w);
    SettlesAtOnce(ctx, w);
    RunLeavesSynced(ctx, w);
  }
}
