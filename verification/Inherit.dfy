/** Which file's value a config inherits, and what a failed load means. */
module Inherit {
  import opened Collections
  import opened Extend

  // -------------------------------------------------------------- one merge

  /** Any key but the three source lists. */
  predicate PlainKey(key: Key) {
    key != Name("skills") && key != Name("mcps") && key != Name("commands")
  }

  lemma PlainIsNoSourceList(key: Key)
    ensures IsSourceList(key) <==> !PlainKey(key)
  {
  }

  /** The overlay's value of a plain key replaces the base's; what the overlay does not mention stays. */
  lemma OverlayWins(base: Value, overlay: Value, key: Key)
    requires base.Map? && overlay.Map? && PlainKey(key)
    ensures Merge(base, overlay).Map?
    ensures key in overlay.fields ==> key in Merge(base, overlay).fields && Merge(base, overlay).fields[key] == overlay.fields[key]
    ensures key !in overlay.fields && key in base.fields ==>
      key in Merge(base, overlay).fields && Merge(base, overlay).fields[key] == base.fields[key]
    ensures key !in overlay.fields && key !in base.fields ==> key !in Merge(base, overlay).fields
  {
    hide Merge, MergeLists;
    PlainIsNoSourceList(key);
    MergeGets(base, overlay, key);
  }

  /** A source list that only one side has stays; where both have lists, the overlay's last entry of an identity
      wins over the base's first; and a side that is no list is replaced. */
  lemma SourceListsMerge(base: Value, overlay: Value, key: Key)
    requires base.Map? && overlay.Map? && !PlainKey(key)
    ensures Merge(base, overlay).Map?
    ensures var m := Merge(base, overlay).fields;
      && (key !in overlay.fields ==> Get(m, key) == Get(base.fields, key))
      && (key in overlay.fields ==> key in m)
      && (key in overlay.fields && (key !in base.fields || !base.fields[key].List? || !overlay.fields[key].List?) ==>
            m[key] == overlay.fields[key])
      && (key in overlay.fields && key in base.fields && base.fields[key].List? && overlay.fields[key].List? ==>
            && m[key].List?
            && forall id :: FirstWith(m[key].items, id) ==
                 if LastWith(overlay.fields[key].items, id).Some? then LastWith(overlay.fields[key].items, id)
                 else FirstWith(base.fields[key].items, id))
  {
    hide Merge, MergeLists, FirstWith, LastWith;
    PlainIsNoSourceList(key);
    MergeGets(base, overlay, key);
    if key in overlay.fields && key in base.fields && base.fields[key].List? && overlay.fields[key].List? {
      forall id ensures FirstWith(MergeLists(base.fields[key].items, overlay.fields[key].items), id) ==
          if LastWith(overlay.fields[key].items, id).Some? then LastWith(overlay.fields[key].items, id)
          else FirstWith(base.fields[key].items, id) {
        MergeListsLooksUp(base.fields[key].items, overlay.fields[key].items, id);
      }
    }
  }

  lemma NoMappingIsReplaced(base: Value, overlay: Value)
    requires !base.Map? || !overlay.Map?
    ensures Merge(base, overlay) == overlay
  {
  }

  // -------------------------------------------------------------- identities

  /** The text under a key, if there is one. */
  ghost predicate HasText(e: Value, key: string, text: string) {
    e.Map? && Name(key) in e.fields && e.fields[Name(key)] == Str(text)
  }

  ghost predicate NoText(e: Value, key: string) { forall t :: !HasText(e, key, t) }

  /** The entry's text under the first of two keys that has one, or nothing. */
  ghost predicate TextOf(e: Value, key: string, other: string, text: string) {
    || HasText(e, key, text)
    || (NoText(e, key) && HasText(e, other, text))
    || (NoText(e, key) && NoText(e, other) && text == "")
  }

  /** An entry is told by its source, its pin, be it a ref or a branch, and its sub-directory in either spelling. */
  lemma IdentityMeans(e: Value)
    ensures TextOf(e, "source", "source", IdentityOf(e).source)
    ensures TextOf(e, "ref", "branch", IdentityOf(e).pin)
    ensures TextOf(e, "sub-dir", "sub_dir", IdentityOf(e).subDir)
  {
    if e.Map? {
      TextIs(e, "source");
      TextIs(e, "ref");
      TextIs(e, "branch");
      TextIs(e, "sub-dir");
      TextIs(e, "sub_dir");
    }
  }

  lemma TextIs(e: Value, key: string)
    requires e.Map?
    ensures StringField(e.fields, key).Some? ==> HasText(e, key, StringField(e.fields, key).value)
    ensures StringField(e.fields, key).None? ==> NoText(e, key)
  {
  }

  // ------------------------------------------------------------- references

  lemma {:induction false} StringsAre(items: seq<Value>, t: string)
    ensures t in Strings(items) <==> Str(t) in items
  {
    if items != [] { StringsAre(items[1..], t); }
  }

  lemma {:induction false} StringsInOrder(a: seq<Value>, b: seq<Value>)
    ensures Strings(a + b) == Strings(a) + Strings(b)
    decreases |a|
  {
    if a == [] {
      assert a + b == b;
    } else {
      assert (a + b)[1..] == a[1..] + b;
      StringsInOrder(a[1..], b);
    }
  }

  /** A file extends the one text, or the texts of the list, under `extends`, and nothing else; and the rest of
      it is what it says itself. */
  lemma ExtendsMeans(st: Store, id: FileId)
    requires st.content(id).Some? && st.content(id).value.Map?
    ensures var fields := st.content(id).value.fields;
      && Own(st, id).Map?
      && (forall key :: key in Own(st, id).fields <==> key in fields && key != Name("extends"))
      && (forall key :: key in Own(st, id).fields ==> Own(st, id).fields[key] == fields[key])
      && (if Name("extends") !in fields then Refs(st, id) == []
          else match fields[Name("extends")]
            case Str(t) => Refs(st, id) == [t]
            case List(items) => forall t :: t in Refs(st, id) <==> Str(t) in items
            case _ => Refs(st, id) == [])
  {
    var fields := st.content(id).value.fields;
    if Name("extends") in fields && fields[Name("extends")].List? {
      forall t ensures t in Strings(fields[Name("extends")].items) <==> Str(t) in fields[Name("extends")].items {
        StringsAre(fields[Name("extends")].items, t);
      }
    }
  }

  // ---------------------------------------------------------- a whole load

  /** The value of the last of these mappings that has the key. */
  ghost function LastGiven(values: seq<Value>, key: Key): Option<Value> {
    if values == [] then None
    else
      var v := values[|values| - 1];
      if v.Map? && key in v.fields then Some(v.fields[key]) else LastGiven(values[..|values| - 1], key)
  }

  ghost predicate AllMaps(values: seq<Value>) { forall v :: v in values ==> v.Map? }

  lemma {:induction false} LastGivenConcat(a: seq<Value>, b: seq<Value>, key: Key)
    ensures LastGiven(a + b, key) == if LastGiven(b, key).Some? then LastGiven(b, key) else LastGiven(a, key)
    decreases |b|
  {
    if b == [] {
      assert a + b == a;
    } else {
      assert (a + b)[..|a + b| - 1] == a + b[..|b| - 1];
      LastGivenConcat(a, b[..|b| - 1], key);
    }
  }

  lemma MapsApart(a: seq<Value>, b: seq<Value>)
    requires AllMaps(a + b)
    ensures AllMaps(a) && AllMaps(b)
  {
    assert forall v :: v in a ==> v in a + b;
    assert forall v :: v in b ==> v in a + b;
  }

  lemma {:induction false} LoadGives(st: Store, from: Option<FileId>, ref: string, visited: set<FileId>, depth: nat, key: Key)
    requires Load(st, from, ref, visited, depth).Success? && PlainKey(key)
    requires st.resolve(from, ref).Some? && AllMaps(Contents(st, PostOrder(st, st.resolve(from, ref).value, depth)))
    ensures var v := Load(st, from, ref, visited, depth).value;
      v.Map? && Get(v.fields, key) == LastGiven(Contents(st, PostOrder(st, st.resolve(from, ref).value, depth)), key)
    decreases Left(depth), 0
  {
    hide Merge, Own, Refs, PlainKey;
    var id := st.resolve(from, ref).value;
    var below := ParentsOrder(st, id, Refs(st, id), depth + 1);
    ContentsConcat(st, below, [id]);
    MapsApart(Contents(st, below), Contents(st, [id]));
    assert Contents(st, [id]) == [Own(st, id)];
    ParentsGive(st, id, Refs(st, id), visited + {id}, depth + 1, EMPTY, key);
    LastGivenConcat(Contents(st, below), [Own(st, id)], key);
    assert LastGiven([Own(st, id)], key) == Get(Own(st, id).fields, key) by { assert [Own(st, id)][..0] == []; }
    OverlayWins(LoadParents(st, id, Refs(st, id), visited + {id}, depth + 1, EMPTY).value, Own(st, id), key);
  }

  lemma {:induction false} ParentsGive(st: Store, id: FileId, refs: seq<string>, visited: set<FileId>, depth: nat, merged: Value, key: Key)
    requires LoadParents(st, id, refs, visited, depth, merged).Success? && PlainKey(key) && merged.Map?
    requires AllMaps(Contents(st, ParentsOrder(st, id, refs, depth)))
    ensures var v, given := LoadParents(st, id, refs, visited, depth, merged).value, LastGiven(Contents(st, ParentsOrder(st, id, refs, depth)), key);
      v.Map? && Get(v.fields, key) == if given.Some? then given else Get(merged.fields, key)
    decreases Left(depth), |refs| + 1
  {
    hide Merge, Own, Refs, Load, PostOrder, PlainKey;
    if refs != [] {
      var v := Load(st, Some(id), refs[0], visited, depth).value;
      LoadResolves(st, Some(id), refs[0], visited, depth);
      var first := PostOrder(st, st.resolve(Some(id), refs[0]).value, depth);
      var rest := ParentsOrder(st, id, refs[1..], depth);
      ContentsConcat(st, first, rest);
      MapsApart(Contents(st, first), Contents(st, rest));
      LastGivenConcat(Contents(st, first), Contents(st, rest), key);
      LoadGives(st, Some(id), refs[0], visited, depth, key);
      OverlayWins(merged, v, key);
      ParentsGive(st, id, refs[1..], visited, depth, Merge(merged, v), key);
    }
  }

  /** For every key but the source lists a loaded config has the value of the last file that gives one, in the
      order of the merge: a file's own value before what it extends, and a later parent's before an earlier one's. */
  lemma LoadedValueIsLast(st: Store, ref: string, key: Key)
    requires Load(st, None, ref, {}, 0).Success? && PlainKey(key)
    requires st.resolve(None, ref).Some? && AllMaps(Contents(st, PostOrder(st, st.resolve(None, ref).value, 0)))
    ensures var v, root := Load(st, None, ref, {}, 0).value, st.resolve(None, ref).value;
      && v.Map? && Get(v.fields, key) == LastGiven(Contents(st, PostOrder(st, root, 0)), key)
      && (key in Own(st, root).fields ==> Get(v.fields, key) == Some(Own(st, root).fields[key]))
  {
    hide Load, PlainKey, Own, Merge, Refs;
    var root := st.resolve(None, ref).value;
    LoadGives(st, None, ref, {}, 0, key);
    var below := ParentsOrder(st, root, Refs(st, root), 1);
    assert PostOrder(st, root, 0) == below + [root];
    assert Contents(st, PostOrder(st, root, 0))[|below|] == Own(st, root);
  }

  // ------------------------------------------------------ a loaded source list

  /** The entry of this identity in the last of these mappings that lists one, and there the last. */
  ghost function LastListed(values: seq<Value>, key: Key, id: Identity): Option<Value> {
    if values == [] then None
    else
      var v := values[|values| - 1];
      if v.Map? && key in v.fields && v.fields[key].List? && LastWith(v.fields[key].items, id).Some?
      then LastWith(v.fields[key].items, id)
      else LastListed(values[..|values| - 1], key, id)
  }

  ghost function Listed(v: Value, key: Key): seq<Value> {
    if v.Map? && key in v.fields && v.fields[key].List? then v.fields[key].items else []
  }

  lemma {:induction false} MergedEntryIsLast(values: seq<Value>, key: Key, id: Identity)
    requires AllTidy(values) && !PlainKey(key)
    ensures FirstWith(Listed(MergeAll(values), key), id) == LastListed(values, key, id)
  {
    hide Merge, Tidy, FirstWith, LastWith, PlainKey, IdentityOf;
    if values == [] {
      NoneFirst(id);
    } else {
      var n := |values| - 1;
      MergedEntryIsLast(values[..n], key, id);
      MergeAllIsTidy(values[..n]);
      TidyIsMap(MergeAll(values[..n]), key);
      TidyIsMap(values[n], key);
      SourceListsMerge(MergeAll(values[..n]), values[n], key);
      if key in values[n].fields { FirstIsLast(values[n].fields[key].items, id); }
      NoneFirst(id);
    }
  }

  lemma NoneFirst(id: Identity)
    ensures FirstWith([], id) == None
  {
  }

  lemma TidyIsMap(v: Value, key: Key)
    requires Tidy(v) && !PlainKey(key)
    ensures v.Map? && (key in v.fields ==> v.fields[key].List? && DistinctIds(v.fields[key].items))
  {
    PlainIsNoSourceList(key);
    if key in v.fields { assert TidyField(key, v.fields[key]); }
  }

  lemma {:induction false} FirstIsLast(s: seq<Value>, id: Identity)
    requires DistinctIds(s)
    ensures FirstWith(s, id) == LastWith(s, id)
  {
    hide IdentityOf, Position;
    if s != [] {
      var n := |s| - 1;
      FirstIsLast(s[..n], id);
      var p := Position(s[..n], id);
      if p < n {
        assert s[..n][p] == s[p];
        PositionIs(s, id, p);
      } else {
        forall i | 0 <= i < n ensures IdentityOf(s[i]) != id { assert s[..n][i] == s[i]; }
        PositionIs(s, id, if IdentityOf(s[n]) == id then n else n + 1);
      }
    }
  }

  /** An entry of a loaded config comes from the last file, in the order of the merge, that lists its identity. */
  lemma LoadedEntryIsLast(st: Store, ref: string, key: Key, id: Identity)
    requires Load(st, None, ref, {}, 0).Success? && !PlainKey(key)
    requires st.resolve(None, ref).Some? && AllTidy(Contents(st, PostOrder(st, st.resolve(None, ref).value, 0)))
    ensures FirstWith(Listed(Load(st, None, ref, {}, 0).value, key), id)
         == LastListed(Contents(st, PostOrder(st, st.resolve(None, ref).value, 0)), key, id)
  {
    hide Load, PlainKey, Own, Merge, Refs, Tidy, FirstWith, LastWith, MergeAll;
    var root := st.resolve(None, ref).value;
    var below := ParentsOrder(st, root, Refs(st, root), 1);
    ContentsConcat(st, below, [root]);
    assert PostOrder(st, root, 0) == below + [root];
    TidyParts(Contents(st, below), Contents(st, [root]));
    LoadIsFlat(st, None, ref, {}, 0);
    MergedEntryIsLast(Contents(st, PostOrder(st, root, 0)), key, id);
  }

  // --------------------------------------------------------- why a load fails

  /** A walk from `id` that ends in the defect an error tells of. */
  ghost predicate Defect(st: Store, id: FileId, p: seq<FileId>, visited: set<FileId>, depth: nat, e: LoadError) {
    && Walk(st, id, p)
    && var last := p[|p| - 1];
       match e
       case DepthLimit => |p| + depth == 9 && Refs(st, last) != []
       case NotFound => exists r :: r in Refs(st, last) && st.resolve(Some(last), r).None?
       case Circular => last in visited || last in p[..|p| - 1]
       case Unparsable => st.content(last).None?
  }

  lemma DefectBelow(st: Store, id: FileId, b: FileId, p: seq<FileId>, visited: set<FileId>, depth: nat, e: LoadError)
    requires Extends(st, id, b) && Defect(st, b, p, visited + {id}, depth + 1, e)
    ensures Defect(st, id, [id] + p, visited, depth, e)
  {
    hide Walk, Refs, Extends;
    WalkIsNonEmpty(st, b, p);
    WalkPrepends(st, id, b, p);
    var q := [id] + p;
    assert q[|q| - 1] == p[|p| - 1] && q[0] == id;
    assert q[..|q| - 1] == [id] + p[..|p| - 1];
  }

  lemma {:induction false} ErrorIsReal(st: Store, from: Option<FileId>, ref: string, visited: set<FileId>, depth: nat) returns (p: seq<FileId>)
    requires depth <= 8 && Load(st, from, ref, visited, depth).Failure? && st.resolve(from, ref).Some?
    ensures Defect(st, st.resolve(from, ref).value, p, visited, depth, Load(st, from, ref, visited, depth).error)
    decreases Left(depth), 0
  {
    hide Merge, Own, Refs, Extends;
    var id := st.resolve(from, ref).value;
    SingleWalk(st, id);
    p := [id];
    if id !in visited && st.content(id).Some? {
      p := ParentErrorIsReal(st, id, Refs(st, id), visited, depth, EMPTY);
    }
  }

  lemma {:induction false} ParentErrorIsReal(st: Store, id: FileId, refs: seq<string>, visited: set<FileId>, depth: nat, merged: Value)
    returns (p: seq<FileId>)
    requires depth <= 8 && LoadParents(st, id, refs, visited + {id}, depth + 1, merged).Failure? && forall r :: r in refs ==> r in Refs(st, id)
    ensures Defect(st, id, p, visited, depth, LoadParents(st, id, refs, visited + {id}, depth + 1, merged).error)
    decreases Left(depth + 1), |refs| + 1
  {
    hide Merge, Refs, Load;
    var first := Load(st, Some(id), refs[0], visited + {id}, depth + 1);
    if first.Success? {
      p := ParentErrorIsReal(st, id, refs[1..], visited, depth, Merge(merged, first.value));
    } else {
      p := FirstErrorIsReal(st, id, refs[0], visited, depth);
    }
  }

  lemma {:induction false} FirstErrorIsReal(st: Store, id: FileId, r: string, visited: set<FileId>, depth: nat) returns (p: seq<FileId>)
    requires depth <= 8 && Load(st, Some(id), r, visited + {id}, depth + 1).Failure? && r in Refs(st, id)
    ensures Defect(st, id, p, visited, depth, Load(st, Some(id), r, visited + {id}, depth + 1).error)
    decreases Left(depth + 1), 1
  {
    hide Merge, Own, Refs, LoadParents;
    SingleWalk(st, id);
    p := [id];
    if depth < 8 && st.resolve(Some(id), r).Some? {
      var b := st.resolve(Some(id), r).value;
      assert Extends(st, id, b);
      var q := ErrorIsReal(st, Some(id), r, visited + {id}, depth + 1);
      DefectBelow(st, id, b, q, visited, depth, Load(st, Some(id), r, visited + {id}, depth + 1).error);
      p := [id] + q;
    }
  }
}
