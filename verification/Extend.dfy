/** Config inheritance: the identity-keyed merge, and the recursive load. */
module Extend {
  import opened Collections

  datatype Key = Name(text: string) | OtherKey(token: string)

  /** A YAML value. Nulls, booleans and numbers are kept as their token; a mapping is compared without
      regard to the order of its keys. */
  datatype Value =
    | Str(text: string)
    | Plain(token: string)
    | List(items: seq<Value>)
    | Map(fields: map<Key, Value>)

  const EMPTY := Map(map[])

  predicate IsSourceList(key: Key) {
    key == Name("skills") || key == Name("mcps") || key == Name("commands")
  }

  // ------------------------------------------------------------- identities

  datatype Identity = Identity(source: string, pin: string, subDir: string)

  function StringField(m: map<Key, Value>, key: string): Option<string> {
    if Name(key) in m && m[Name(key)].Str? then Some(m[Name(key)].text) else None
  }

  function FirstOf(a: Option<string>, b: Option<string>): string {
    if a.Some? then a.value else if b.Some? then b.value else ""
  }

  function IdentityOf(entry: Value): Identity {
    if !entry.Map? then Identity("", "", "")
    else Identity(
        FirstOf(StringField(entry.fields, "source"), None),
        FirstOf(StringField(entry.fields, "ref"), StringField(entry.fields, "branch")),
        FirstOf(StringField(entry.fields, "sub-dir"), StringField(entry.fields, "sub_dir")))
  }

  /** The first place in `out` held by `id`, or the end. */
  function Position(out: seq<Value>, id: Identity): (p: nat)
    ensures p <= |out|
    ensures p < |out| ==> IdentityOf(out[p]) == id
    ensures forall i :: 0 <= i < p ==> IdentityOf(out[i]) != id
  {
    if out == [] || IdentityOf(out[0]) == id then 0 else 1 + Position(out[1..], id)
  }

  function Upsert(out: seq<Value>, x: Value): seq<Value> {
    var p := Position(out, IdentityOf(x));
    if p < |out| then out[p := x] else out + [x]
  }

  /** All of `overlay` upserted into `base`, in order. */
  function MergeLists(base: seq<Value>, overlay: seq<Value>): seq<Value>
    decreases |overlay|
  {
    if overlay == [] then base
    else Upsert(MergeLists(base, overlay[..|overlay| - 1]), overlay[|overlay| - 1])
  }

  ghost predicate DistinctIds(s: seq<Value>) {
    forall i, j :: 0 <= i < j < |s| ==> IdentityOf(s[i]) != IdentityOf(s[j])
  }

  method FindIdentity(out: seq<Value>, id: Identity) returns (p: nat)
    ensures p == Position(out, id)
  {
    p := 0;
    while p < |out| && IdentityOf(out[p]) != id
      invariant p <= |out|
      invariant forall j :: 0 <= j < p ==> IdentityOf(out[j]) != id
    {
      p := p + 1;
    }
    PositionIs(out, id, p);
  }

  method MergeSourceList(base: seq<Value>, overlay: seq<Value>) returns (out: seq<Value>)
    ensures out == MergeLists(base, overlay)
  {
    hide IdentityOf, Position;
    out := base;
    for i := 0 to |overlay|
      invariant out == MergeLists(base, overlay[..i])
    {
      assert overlay[..i + 1][..i] == overlay[..i];
      var p := FindIdentity(out, IdentityOf(overlay[i]));
      if p < |out| {
        out := out[p := overlay[i]];
      } else {
        out := out + [overlay[i]];
      }
    }
    assert overlay[..|overlay|] == overlay;
  }

  lemma {:induction false} PositionIs(out: seq<Value>, id: Identity, p: nat)
    requires p <= |out| && (p < |out| ==> IdentityOf(out[p]) == id)
    requires forall i :: 0 <= i < p ==> IdentityOf(out[i]) != id
    ensures Position(out, id) == p
  {
    hide IdentityOf;
    if p > 0 {
      PositionIs(out[1..], id, p - 1);
    }
  }

  // ------------------------------------ what merging two source lists means

  /** The last entry of `s` with this identity. */
  ghost function LastWith(s: seq<Value>, id: Identity): Option<Value> {
    if s == [] then None
    else if IdentityOf(s[|s| - 1]) == id then Some(s[|s| - 1])
    else LastWith(s[..|s| - 1], id)
  }

  ghost function FirstWith(s: seq<Value>, id: Identity): Option<Value> {
    var p := Position(s, id);
    if p < |s| then Some(s[p]) else None
  }

  lemma UpsertLooksUp(out: seq<Value>, x: Value, id: Identity)
    ensures FirstWith(Upsert(out, x), id) == if id == IdentityOf(x) then Some(x) else FirstWith(out, id)
    ensures |out| <= |Upsert(out, x)|
    ensures forall i :: 0 <= i < |out| ==> IdentityOf(Upsert(out, x)[i]) == IdentityOf(out[i])
    ensures DistinctIds(out) ==> DistinctIds(Upsert(out, x))
  {
    hide IdentityOf;
    var r := Upsert(out, x);
    var p := Position(out, IdentityOf(x));
    var q := Position(out, id);
    if id == IdentityOf(x) {
      PositionIs(r, id, p);
    } else if q < |out| {
      PositionIs(r, id, q);
    } else {
      PositionIs(r, id, |r|);
    }
  }

  /** The overlay's last entry with an identity wins, else the base's first; the base's entries keep
      their places; and no identity is repeated unless the base already did. */
  lemma {:induction false} MergeListsLooksUp(base: seq<Value>, overlay: seq<Value>, id: Identity)
    ensures FirstWith(MergeLists(base, overlay), id)
         == if LastWith(overlay, id).Some? then LastWith(overlay, id) else FirstWith(base, id)
    ensures |base| <= |MergeLists(base, overlay)|
    ensures forall i :: 0 <= i < |base| ==> IdentityOf(MergeLists(base, overlay)[i]) == IdentityOf(base[i])
    ensures DistinctIds(base) ==> DistinctIds(MergeLists(base, overlay))
    decreases |overlay|
  {
    hide IdentityOf, FirstWith, DistinctIds, Upsert;
    if overlay != [] {
      var n := |overlay| - 1;
      MergeListsLooksUp(base, overlay[..n], id);
      UpsertLooksUp(MergeLists(base, overlay[..n]), overlay[n], id);
    }
  }

  // ---------------------------------------------------------- associativity

  /** Upserting `x` after a `z` of another identity, when `x`'s place already exists, is the same as before. */
  lemma UpsertsCommute(out: seq<Value>, x: Value, z: Value)
    requires IdentityOf(x) != IdentityOf(z) && Position(out, IdentityOf(x)) < |out|
    ensures Upsert(Upsert(out, z), x) == Upsert(Upsert(out, x), z)
  {
    hide IdentityOf, Position;
    var p := Position(out, IdentityOf(x));
    var q := Position(out, IdentityOf(z));
    UpsertKeepsPlace(out, z, IdentityOf(x));
    UpsertKeepsPlace(out, x, IdentityOf(z));
    PutsCommute(out, p, q, x, z);
  }

  lemma PutsCommute<T>(s: seq<T>, p: nat, q: nat, x: T, z: T)
    requires p < |s| && q <= |s| && p != q
    ensures q < |s| ==> s[q := z][p := x] == s[p := x][q := z]
    ensures q == |s| ==> (s + [z])[p := x] == s[p := x] + [z]
  {
  }

  /** Upserting another identity leaves the first place of `id` where it was, or past the end. */
  lemma UpsertKeepsPlace(out: seq<Value>, x: Value, id: Identity)
    requires IdentityOf(x) != id
    ensures var r := Upsert(out, x);
      Position(r, id) == if Position(out, id) < |out| then Position(out, id) else |r|
  {
    hide IdentityOf, Position;
    var r := Upsert(out, x);
    PositionIs(r, id, if Position(out, id) < |out| then Position(out, id) else |r|);
  }

  lemma UpsertTwice(out: seq<Value>, x: Value, y: Value)
    requires IdentityOf(x) == IdentityOf(y)
    ensures Upsert(Upsert(out, y), x) == Upsert(out, x)
  {
    hide IdentityOf;
    var p := Position(out, IdentityOf(x));
    PositionIs(Upsert(out, y), IdentityOf(x), p);
  }

  lemma {:induction false} MergeSplit(a: seq<Value>, b: seq<Value>, c: seq<Value>)
    ensures MergeLists(a, b + c) == MergeLists(MergeLists(a, b), c)
    decreases |c|
  {
    hide Upsert;
    if c == [] {
      assert b + c == b;
    } else {
      var n := |c| - 1;
      assert (b + c)[..|b + c| - 1] == b + c[..n];
      MergeSplit(a, b, c[..n]);
    }
  }

  /** Replacing the entry at `p`, whose identity occurs once in `b`, shows as an upsert at the end. */
  lemma {:induction false} ReplaceThenMerge(a: seq<Value>, b: seq<Value>, p: nat, x: Value)
    requires p < |b| && IdentityOf(b[p]) == IdentityOf(x) && DistinctIds(b)
    ensures MergeLists(a, b[p := x]) == Upsert(MergeLists(a, b), x)
    decreases |b|
  {
    hide Upsert, IdentityOf;
    var n := |b| - 1;
    assert b[p := x][..n] == if p < n then b[..n][p := x] else b[..n];
    if p == n {
      UpsertTwice(MergeLists(a, b[..n]), x, b[n]);
    } else {
      ReplaceThenMerge(a, b[..n], p, x);
      MergeHas(a, b[..n], p);
      UpsertsCommute(MergeLists(a, b[..n]), x, b[n]);
    }
  }

  lemma {:induction false} MergeHas(a: seq<Value>, b: seq<Value>, p: nat)
    requires p < |b|
    ensures Position(MergeLists(a, b), IdentityOf(b[p])) < |MergeLists(a, b)|
    decreases |b|
  {
    hide Upsert, IdentityOf;
    MergeListsLooksUp(a, b, IdentityOf(b[p]));
    LastWithHas(b, p);
  }

  lemma {:induction false} LastWithHas(s: seq<Value>, p: nat)
    requires p < |s|
    ensures LastWith(s, IdentityOf(s[p])).Some?
    decreases |s|
  {
    hide IdentityOf;
    if p < |s| - 1 {
      LastWithHas(s[..|s| - 1], p);
    }
  }

  lemma {:induction false} MergeListsAssociates(a: seq<Value>, b: seq<Value>, c: seq<Value>)
    requires DistinctIds(b)
    ensures MergeLists(MergeLists(a, b), c) == MergeLists(a, MergeLists(b, c))
    decreases |c|
  {
    hide IdentityOf, DistinctIds;
    if c != [] {
      var n := |c| - 1;
      var bc := MergeLists(b, c[..n]);
      MergeListsAssociates(a, b, c[..n]);
      MergeListsLooksUp(b, c[..n], IdentityOf(c[n]));
      var p := Position(bc, IdentityOf(c[n]));
      if p < |bc| {
        ReplaceThenMerge(a, bc, p, c[n]);
      } else {
        MergeSplit(a, bc, [c[n]]);
        assert [c[n]][..0] == [];
        assert MergeLists(MergeLists(a, bc), [c[n]]) == Upsert(MergeLists(MergeLists(a, bc), []), c[n]);
      }
    }
  }

  // ------------------------------------------------------------- merge_yaml

  function MergeField(key: Key, base: Option<Value>, overlay: Option<Value>): Option<Value> {
    match overlay
    case None => base
    case Some(ov) =>
      if IsSourceList(key) && base.Some? && base.value.List? && ov.List?
      then Some(List(MergeLists(base.value.items, ov.items)))
      else overlay
  }

  function Get(m: map<Key, Value>, key: Key): Option<Value> {
    if key in m then Some(m[key]) else None
  }

  function Merge(base: Value, overlay: Value): Value {
    if !base.Map? || !overlay.Map? then overlay
    else Map(map key | key in base.fields.Keys + overlay.fields.Keys ::
      MergeField(key, Get(base.fields, key), Get(overlay.fields, key)).value)
  }

  method MergeYaml(base: Value, overlay: Value) returns (r: Value)
    ensures r == Merge(base, overlay)
  {
    hide MergeLists, IsSourceList, MergeField;
    if !base.Map? || !overlay.Map? {
      return overlay;
    }
    var out := base.fields;
    var todo := overlay.fields.Keys;
    NothingOverlaid(base.fields);
    while todo != {}
      invariant todo <= overlay.fields.Keys
      invariant forall key :: Get(out, key) == FieldSoFar(base.fields, overlay.fields, todo, key)
      decreases |todo|
    {
      var key :| key in todo;
      assert Get(out, key) == FieldSoFar(base.fields, overlay.fields, todo, key);
      var ov := MergeOneField(key, Get(out, key), overlay.fields[key]);
      FieldDone(base.fields, overlay.fields, todo, out, key, ov);
      out := out[key := ov];
      todo := todo - {key};
    }
    FieldsAreMerged(base, overlay, out);
    r := Map(out);
  }

  ghost function FieldSoFar(base: map<Key, Value>, overlay: map<Key, Value>, todo: set<Key>, key: Key): Option<Value> {
    if key in todo then Get(base, key) else MergeField(key, Get(base, key), Get(overlay, key))
  }

  lemma NothingOverlaid(base: map<Key, Value>)
    ensures forall key :: MergeField(key, Get(base, key), None) == Get(base, key)
  {
  }

  lemma FieldDone(base: map<Key, Value>, overlay: map<Key, Value>, todo: set<Key>, out: map<Key, Value>,
                  key: Key, ov: Value)
    requires key in todo && key in overlay
    requires forall k :: Get(out, k) == FieldSoFar(base, overlay, todo, k)
    requires Some(ov) == MergeField(key, Get(base, key), Some(overlay[key]))
    ensures forall k :: Get(out[key := ov], k) == FieldSoFar(base, overlay, todo - {key}, k)
  {
    hide MergeField;
    forall k ensures Get(out[key := ov], k) == FieldSoFar(base, overlay, todo - {key}, k) {
      assert Get(out, k) == FieldSoFar(base, overlay, todo, k);
    }
  }

  lemma FieldsAreMerged(base: Value, overlay: Value, out: map<Key, Value>)
    requires base.Map? && overlay.Map?
    requires forall key :: Get(out, key) == FieldSoFar(base.fields, overlay.fields, {}, key)
    ensures Map(out) == Merge(base, overlay)
  {
    hide MergeLists, IsSourceList, MergeField, Merge;
    MergeGets(base, overlay, Name(""));
    forall key ensures Get(out, key) == Get(Merge(base, overlay).fields, key) {
      assert Get(out, key) == FieldSoFar(base.fields, overlay.fields, {}, key);
      MergeGets(base, overlay, key);
    }
    SameMaps(Map(out), Merge(base, overlay));
  }

  method MergeOneField(key: Key, base: Option<Value>, ov: Value) returns (r: Value)
    ensures Some(r) == MergeField(key, base, Some(ov))
  {
    if IsSourceList(key) && base.Some? && base.value.List? && ov.List? {
      var merged := MergeSourceList(base.value.items, ov.items);
      r := List(merged);
    } else {
      r := ov;
    }
  }

  /** A mapping whose source lists, where present, are lists of distinct identities. */
  ghost predicate TidyField(key: Key, v: Value) {
    IsSourceList(key) ==> v.List? && DistinctIds(v.items)
  }

  ghost predicate Tidy(v: Value) {
    v.Map? && forall key :: key in v.fields ==> TidyField(key, v.fields[key])
  }

  lemma FieldsAssociate(key: Key, x: Option<Value>, y: Option<Value>, z: Option<Value>)
    requires y.Some? ==> TidyField(key, y.value)
    ensures MergeField(key, MergeField(key, x, y), z) == MergeField(key, x, MergeField(key, y, z))
  {
    hide MergeLists, IsSourceList, DistinctIds;
    if x.Some? && y.Some? && z.Some? && x.value.List? && y.value.List? && z.value.List? && IsSourceList(key) {
      MergeListsAssociates(x.value.items, y.value.items, z.value.items);
    }
  }

  lemma MergeGets(a: Value, b: Value, key: Key)
    requires a.Map? && b.Map?
    ensures Merge(a, b).Map?
    ensures Get(Merge(a, b).fields, key) == MergeField(key, Get(a.fields, key), Get(b.fields, key))
  {
    hide MergeLists, IsSourceList;
  }

  lemma SameMaps(a: Value, b: Value)
    requires a.Map? && b.Map? && forall key :: Get(a.fields, key) == Get(b.fields, key)
    ensures a == b
  {
    forall key ensures key in a.fields <==> key in b.fields
    {
      assert Get(a.fields, key) == Get(b.fields, key);
    }
    forall key | key in a.fields ensures a.fields[key] == b.fields[key]
    {
      assert Get(a.fields, key) == Get(b.fields, key);
    }
    assert a.fields == b.fields;
  }

  lemma TidyAssociates(a: Value, b: Value, c: Value)
    requires Tidy(b)
    ensures Merge(Merge(a, b), c) == Merge(a, Merge(b, c))
  {
    if a.Map? && c.Map? {
      forall key ensures Get(Merge(Merge(a, b), c).fields, key) == Get(Merge(a, Merge(b, c)).fields, key) {
        hide MergeField, Merge;
        MergeGets(a, b, key);
        MergeGets(b, c, key);
        MergeGets(Merge(a, b), c, key);
        MergeGets(a, Merge(b, c), key);
        FieldsAssociate(key, Get(a.fields, key), Get(b.fields, key), Get(c.fields, key));
      }
      SameMaps(Merge(Merge(a, b), c), Merge(a, Merge(b, c)));
    }
  }

  // -------------------------------------------- exactly when merging associates

  ghost predicate Associates(a: Value, b: Value, c: Value) {
    Merge(Merge(a, b), c) == Merge(a, Merge(b, c))
  }

  /** An entry with the given identity and a distinguishing note. */
  function Entry(id: Identity, note: string): Value {
    Map(map[
      Name("source") := Str(id.source), Name("ref") := Str(id.pin), Name("sub-dir") := Str(id.subDir),
      Name("note") := Plain(note)])
  }

  lemma EntryHasIdentity(id: Identity, note: string)
    ensures IdentityOf(Entry(id, note)) == id
    ensures Entry(id, note).fields[Name("note")] == Plain(note)
  {
  }

  lemma {:induction false} LastWithIgnores(s: seq<Value>, p: nat, x: Value, j: nat)
    requires p < j < |s| && IdentityOf(x) == IdentityOf(s[j])
    ensures LastWith(s[p := x], IdentityOf(x)) == LastWith(s, IdentityOf(x))
    decreases |s|
  {
    hide IdentityOf;
    var n := |s| - 1;
    if j < n && IdentityOf(s[n]) != IdentityOf(x) {
      assert s[p := x][..n] == s[..n][p := x];
      LastWithIgnores(s[..n], p, x, j);
    }
  }

  /** With a repeated identity in the middle list, some outer lists tell the two groupings apart. */
  lemma RepeatedIdentityBreaks(b: seq<Value>) returns (z: Value)
    requires !DistinctIds(b)
    ensures MergeLists(MergeLists([], b), [z]) != MergeLists([], MergeLists(b, [z]))
  {
    hide IdentityOf, MergeLists, Entry;
    var i, j :| 0 <= i < j < |b| && IdentityOf(b[i]) == IdentityOf(b[j]);
    var id := IdentityOf(b[j]);
    LastWithHas(b, j);
    EntryHasIdentity(id, "1");
    EntryHasIdentity(id, "2");
    z := if LastWith(b, id) == Some(Entry(id, "1")) then Entry(id, "2") else Entry(id, "1");
    assert LastWith(b, id) != Some(z) by { assert Plain("1") != Plain("2"); }
    MergeListsLooksUp(MergeLists([], b), [z], id);
    MergeOne(b, z);
    var p := Position(b, id);
    LastWithIgnores(b, p, z, j);
    MergeListsLooksUp([], MergeLists(b, [z]), id);
  }

  lemma MergeOne(b: seq<Value>, x: Value)
    ensures MergeLists(b, [x]) == Upsert(b, x)
  {
    hide IdentityOf, Upsert;
    assert [x][..0] == [];
    assert MergeLists(b, []) == b;
  }

  lemma FieldsBreak(key: Key, v: Value) returns (a: Value, c: Value)
    requires !TidyField(key, v)
    ensures MergeField(key, MergeField(key, Some(a), Some(v)), Some(c)) != MergeField(key, Some(a), MergeField(key, Some(v), Some(c)))
  {
    hide IdentityOf, MergeLists, Entry, IsSourceList, Upsert;
    if v.List? {
      var z := RepeatedIdentityBreaks(v.items);
      a, c := List([]), List([z]);
    } else {
      var x, z := Entry(Identity("x", "", ""), ""), Entry(Identity("z", "", ""), "");
      EntryHasIdentity(Identity("x", "", ""), "");
      EntryHasIdentity(Identity("z", "", ""), "");
      a, c := List([x]), List([z]);
      MergeOne([x], z);
      UpsertNew(x, z);
    }
  }

  lemma UpsertNew(x: Value, z: Value)
    requires IdentityOf(x) != IdentityOf(z)
    ensures Upsert([x], z) == [x, z]
  {
  }

  lemma UntidyBreaks(b: Value) returns (a: Value, c: Value)
    requires !Tidy(b)
    ensures !Associates(a, b, c)
  {
    if b.Map? {
      hide MergeField, TidyField, Merge;
      var key :| key in b.fields && !TidyField(key, b.fields[key]);
      var x, z := FieldsBreak(key, b.fields[key]);
      a, c := Map(map[key := x]), Map(map[key := z]);
      MergeGets(a, b, key);
      MergeGets(b, c, key);
      MergeGets(Merge(a, b), c, key);
      MergeGets(a, Merge(b, c), key);
    } else {
      a, c := Map(map[Name("") := Plain("")]), EMPTY;
      MergeGets(a, c, Name(""));
      assert Get(a.fields, Name("")) != Get(c.fields, Name(""));
    }
  }

  /** Merging may be regrouped around a value, whatever stands to its left and right, exactly when that
      value is a mapping whose source lists are lists of distinct identities. */
  lemma AssociativeExactlyWhenTidy(b: Value)
    ensures (forall a, c :: Associates(a, b, c)) <==> Tidy(b)
  {
    hide Merge;
    if Tidy(b) {
      forall a, c ensures Associates(a, b, c) {
        TidyAssociates(a, b, c);
      }
    } else {
      var a, c := UntidyBreaks(b);
      assert !Associates(a, b, c);
    }
  }

  lemma EmptyIsIdentity(v: Value)
    ensures Merge(EMPTY, v) == v
    ensures Merge(v, EMPTY) == v <==> v.Map?
  {
    hide IsSourceList, MergeLists;
    if v.Map? {
      assert Merge(EMPTY, v).fields == v.fields;
      assert Merge(v, EMPTY).fields == v.fields;
    }
  }

  lemma MergeKeepsTidy(a: Value, b: Value)
    requires Tidy(a) && Tidy(b)
    ensures Tidy(Merge(a, b))
  {
    forall key | key in Merge(a, b).fields ensures TidyField(key, Merge(a, b).fields[key]) {
      hide MergeLists, IsSourceList, Merge, IdentityOf, DistinctIds;
      MergeGets(a, b, key);
      if key in a.fields && key in b.fields && IsSourceList(key) {
        MergeListsLooksUp(a.fields[key].items, b.fields[key].items, Identity("", "", ""));
      }
    }
  }

  // ----------------------------------------------------- one left-to-right merge

  function MergeAll(values: seq<Value>): Value {
    if values == [] then EMPTY
    else Merge(MergeAll(values[..|values| - 1]), values[|values| - 1])
  }

  ghost predicate AllTidy(values: seq<Value>) {
    forall i :: 0 <= i < |values| ==> Tidy(values[i])
  }

  lemma {:induction false} MergeAllIsTidy(values: seq<Value>)
    requires AllTidy(values)
    ensures Tidy(MergeAll(values))
  {
    hide Merge, Tidy;
    if values == [] {
      EmptyIsTidy();
    } else {
      var n := |values| - 1;
      MergeAllIsTidy(values[..n]);
      MergeKeepsTidy(MergeAll(values[..n]), values[n]);
    }
  }

  lemma EmptyIsTidy()
    ensures Tidy(EMPTY)
  {
  }

  /** Merging a group first and then its result is merging its members one by one; only the last member
      of the group may be untidy. */
  lemma {:induction false} MergeAllGroups(xs: seq<Value>, ys: seq<Value>)
    requires ys != [] && AllTidy(ys[..|ys| - 1])
    ensures MergeAll(xs + ys) == Merge(MergeAll(xs), MergeAll(ys))
    decreases |ys|
  {
    hide Merge, Tidy;
    var n := |ys| - 1;
    assert (xs + ys)[..|xs + ys| - 1] == xs + ys[..n];
    if n == 0 {
      assert xs + ys[..n] == xs;
      EmptyIsIdentity(ys[0]);
    } else {
      MergeAllGroups(xs, ys[..n]);
      MergeAllIsTidy(ys[..n]);
      TidyAssociates(MergeAll(xs), MergeAll(ys[..n]), ys[n]);
    }
  }

  // --------------------------------------------------------- loading a file

  const MAX_EXTENDS_DEPTH := 8

  type FileId(==, !new)

  /** Everything outside: where a reference made from a file leads (none when it cannot be fetched), and
      what a file parses to (none when it is not YAML). */
  datatype Store = Store(
    resolve: (Option<FileId>, string) -> Option<FileId>,
    content: FileId -> Option<Value>)

  datatype LoadError = DepthLimit | NotFound | Circular | Unparsable

  function Strings(items: seq<Value>): seq<string> {
    if items == [] then []
    else (if items[0].Str? then [items[0].text] else []) + Strings(items[1..])
  }

  /** The `extends` references of a value, and the value without them. */
  function ExtractExtends(v: Value): (seq<string>, Value) {
    if !v.Map? || Name("extends") !in v.fields then ([], v)
    else
      var raw := v.fields[Name("extends")];
      (if raw.Str? then [raw.text] else if raw.List? then Strings(raw.items) else [],
       Map(v.fields - {Name("extends")}))
  }

  function Refs(st: Store, id: FileId): seq<string> {
    if st.content(id).Some? then ExtractExtends(st.content(id).value).0 else []
  }

  function Own(st: Store, id: FileId): Value {
    if st.content(id).Some? then ExtractExtends(st.content(id).value).1 else EMPTY
  }

  function Left(depth: nat): nat {
    if depth > MAX_EXTENDS_DEPTH then 0 else MAX_EXTENDS_DEPTH + 1 - depth
  }

  /** What loading a reference comes to. */
  function Load(st: Store, from: Option<FileId>, ref: string, visited: set<FileId>, depth: nat): Result<Value, LoadError>
    decreases Left(depth), 0
  {
    if depth > MAX_EXTENDS_DEPTH then Failure(DepthLimit)
    else match st.resolve(from, ref)
      case None => Failure(NotFound)
      case Some(id) =>
        if id in visited then Failure(Circular)
        else if st.content(id).None? then Failure(Unparsable)
        else match LoadParents(st, id, Refs(st, id), visited + {id}, depth + 1, EMPTY)
          case Failure(e) => Failure(e)
          case Success(merged) => Success(Merge(merged, Own(st, id)))
  }

  function LoadParents(st: Store, id: FileId, refs: seq<string>, visited: set<FileId>, depth: nat, merged: Value):
    Result<Value, LoadError>
    decreases Left(depth), |refs| + 1
  {
    if refs == [] then Success(merged)
    else match Load(st, Some(id), refs[0], visited, depth)
      case Failure(e) => Failure(e)
      case Success(v) => LoadParents(st, id, refs[1..], visited, depth, Merge(merged, v))
  }

  /** The loader itself. `visited` is handed on as a copy to each parent; on success the caller gets its
      own set back unchanged. */
  method LoadValueRecursive(st: Store, from: Option<FileId>, ref: string, visited: set<FileId>, depth: nat)
    returns (r: Result<Value, LoadError>, after: set<FileId>)
    ensures r == Load(st, from, ref, visited, depth)
    ensures r.Success? ==> after == visited
    decreases Left(depth)
  {
    hide Merge, ExtractExtends;
    if depth > MAX_EXTENDS_DEPTH {
      return Failure(DepthLimit), visited;
    }
    var found := st.resolve(from, ref);
    if found.None? {
      return Failure(NotFound), visited;
    }
    var id := found.value;
    if id in visited {
      return Failure(Circular), visited;
    }
    after := visited + {id};
    if st.content(id).None? {
      return Failure(Unparsable), after;
    }
    var refs, own := Refs(st, id), Own(st, id);
    var merged := EMPTY;
    for i := 0 to |refs|
      invariant LoadParents(st, id, refs, after, depth + 1, EMPTY)
             == LoadParents(st, id, refs[i..], after, depth + 1, merged)
    {
      assert refs[i..][1..] == refs[i + 1..];
      var parent, _ := LoadValueRecursive(st, Some(id), refs[i], after, depth + 1);
      if parent.Failure? {
        return parent, after;
      }
      merged := MergeYaml(merged, parent.value);
    }
    var value := MergeYaml(merged, own);
    after := after - {id};
    return Success(value), after;
  }

  // ------------------------------------------------ when does a load succeed

  ghost predicate Extends(st: Store, a: FileId, b: FileId) {
    exists r :: r in Refs(st, a) && st.resolve(Some(a), r) == Some(b)
  }

  /** A walk along `extends` references, starting at `id`. */
  ghost predicate Walk(st: Store, id: FileId, p: seq<FileId>) {
    && p != [] && p[0] == id
    && forall i :: 0 <= i < |p| - 1 ==> Extends(st, p[i], p[i + 1])
  }

  /** The file can be read and every reference it makes leads somewhere. */
  ghost predicate Sound(st: Store, x: FileId) {
    st.content(x).Some? && forall r :: r in Refs(st, x) ==> st.resolve(Some(x), r).Some?
  }

  ghost predicate Fits(st: Store, p: seq<FileId>, visited: set<FileId>, depth: nat) {
    && p != [] && |p| + depth <= MAX_EXTENDS_DEPTH + 1
    && NoDup(p) && (forall x :: x in p ==> x !in visited)
    && Sound(st, p[|p| - 1])
  }

  /** From here on, every walk is short, meets no file twice, and ends in a sound file. */
  ghost predicate AllFit(st: Store, id: FileId, visited: set<FileId>, depth: nat) {
    forall p :: Walk(st, id, p) ==> Fits(st, p, visited, depth)
  }

  lemma WalkPrepends(st: Store, a: FileId, b: FileId, p: seq<FileId>)
    requires Extends(st, a, b) && Walk(st, b, p)
    ensures Walk(st, a, [a] + p)
  {
    hide Extends;
    var q := [a] + p;
    forall i | 0 <= i < |q| - 1 ensures Extends(st, q[i], q[i + 1]) {
      if i > 0 {
        assert Extends(st, p[i - 1], p[i]);
      }
    }
  }

  lemma WalkTail(st: Store, a: FileId, p: seq<FileId>)
    requires Walk(st, a, p) && |p| > 1
    ensures Extends(st, a, p[1]) && Walk(st, p[1], p[1..])
  {
    hide Extends;
    assert Extends(st, p[0], p[0 + 1]);
    var q := p[1..];
    forall i | 0 <= i < |q| - 1 ensures Extends(st, q[i], q[i + 1]) {
      assert Extends(st, p[i + 1], p[i + 1 + 1]);
    }
  }

  lemma FitsPrepends(st: Store, a: FileId, p: seq<FileId>, visited: set<FileId>, depth: nat)
    requires p != []
    ensures Fits(st, [a] + p, visited, depth) <==> a !in visited && Fits(st, p, visited + {a}, depth + 1)
  {
    hide Sound;
    var q := [a] + p;
    if a !in visited && Fits(st, p, visited + {a}, depth + 1) {
      assert forall x :: x in q ==> x == a || x in p;
      assert a !in p;
    }
    if Fits(st, q, visited, depth) {
      assert q[0] == a && q[1..] == p;
      assert forall i :: 0 <= i < |p| ==> p[i] == q[i + 1];
      assert forall x :: x in p ==> x in q;
      assert forall i :: 0 <= i < |p| ==> p[i] != a;
      assert NoDup(p);
    }
  }

  /** One level: all walks from `id` fit exactly when `id` itself does and all walks from what it extends
      do, one deeper and with `id` visited. */
  lemma AllFitUnfolds(st: Store, id: FileId, visited: set<FileId>, depth: nat)
    ensures AllFit(st, id, visited, depth) <==>
      && Fits(st, [id], visited, depth)
      && forall b :: Extends(st, id, b) ==> AllFit(st, b, visited + {id}, depth + 1)
  {
    hide Extends, Fits, Walk;
    SingleWalk(st, id);
    if AllFit(st, id, visited, depth) {
      forall b, p | Extends(st, id, b) && Walk(st, b, p) ensures Fits(st, p, visited + {id}, depth + 1) {
        WalkPrepends(st, id, b, p);
        WalkIsNonEmpty(st, b, p);
        FitsPrepends(st, id, p, visited, depth);
      }
    }
    if Fits(st, [id], visited, depth) && forall b :: Extends(st, id, b) ==> AllFit(st, b, visited + {id}, depth + 1) {
      forall p | Walk(st, id, p) ensures Fits(st, p, visited, depth) {
        WalkIsNonEmpty(st, id, p);
        if |p| > 1 {
          WalkTail(st, id, p);
          assert p == [id] + p[1..];
          FitsSingle(st, id, visited, depth);
          FitsPrepends(st, id, p[1..], visited, depth);
        } else {
          assert p == [id];
        }
      }
    }
  }

  lemma SingleWalk(st: Store, id: FileId)
    ensures Walk(st, id, [id])
  {
  }

  lemma WalkIsNonEmpty(st: Store, id: FileId, p: seq<FileId>)
    requires Walk(st, id, p)
    ensures p != [] && p[0] == id
  {
  }

  lemma FitsSingle(st: Store, id: FileId, visited: set<FileId>, depth: nat)
    ensures Fits(st, [id], visited, depth) <==> depth <= MAX_EXTENDS_DEPTH && id !in visited && Sound(st, id)
  {
    hide Sound;
  }

  /** All references in `refs` lead to files from which all walks fit. */
  ghost predicate RefsFit(st: Store, id: FileId, refs: seq<string>, visited: set<FileId>, depth: nat) {
    forall r :: r in refs ==> st.resolve(Some(id), r).Some? && AllFit(st, st.resolve(Some(id), r).value, visited, depth)
  }

  lemma RefsFitAll(st: Store, id: FileId, visited: set<FileId>, depth: nat)
    requires st.content(id).Some?
    ensures RefsFit(st, id, Refs(st, id), visited, depth) <==>
      Sound(st, id) && forall b :: Extends(st, id, b) ==> AllFit(st, b, visited, depth)
  {
    hide AllFit, Refs;
    if Sound(st, id) && forall b :: Extends(st, id, b) ==> AllFit(st, b, visited, depth) {
      forall r | r in Refs(st, id)
        ensures st.resolve(Some(id), r).Some? && AllFit(st, st.resolve(Some(id), r).value, visited, depth)
      {
        assert Extends(st, id, st.resolve(Some(id), r).value);
      }
    }
  }

  lemma {:induction false} LoadSucceeds(st: Store, from: Option<FileId>, ref: string, visited: set<FileId>, depth: nat)
    ensures Load(st, from, ref, visited, depth).Success? <==>
      st.resolve(from, ref).Some? && AllFit(st, st.resolve(from, ref).value, visited, depth)
    decreases Left(depth), 0
  {
    hide Merge, AllFit, Extends, RefsFit, Refs, Own, Sound, Fits;
    if st.resolve(from, ref).Some? {
      var id := st.resolve(from, ref).value;
      AllFitUnfolds(st, id, visited, depth);
      FitsSingle(st, id, visited, depth);
      SoundIsReadable(st, id);
      if depth <= MAX_EXTENDS_DEPTH && st.content(id).Some? {
        RefsFitAll(st, id, visited + {id}, depth + 1);
        ParentsSucceed(st, id, Refs(st, id), visited + {id}, depth + 1, EMPTY);
      }
    }
  }

  lemma SoundIsReadable(st: Store, id: FileId)
    ensures Sound(st, id) ==> st.content(id).Some?
  {
  }

  lemma {:induction false} ParentsSucceed(st: Store, id: FileId, refs: seq<string>, visited: set<FileId>, depth: nat, merged: Value)
    ensures LoadParents(st, id, refs, visited, depth, merged).Success? <==> RefsFit(st, id, refs, visited, depth)
    decreases Left(depth), |refs| + 1
  {
    hide Merge, AllFit, Extends, Load;
    if refs != [] {
      LoadSucceeds(st, Some(id), refs[0], visited, depth);
      var v := Load(st, Some(id), refs[0], visited, depth);
      if v.Success? {
        ParentsSucceed(st, id, refs[1..], visited, depth, Merge(merged, v.value));
      }
      assert forall r :: r in refs <==> r == refs[0] || r in refs[1..];
    }
  }

  /** `load_config_any` succeeds exactly when the root can be found and every walk along `extends` from
      it has at most nine files, meets no file twice, and ends in a readable file whose references all
      lead somewhere: the cycle guard and the depth guard are exact, and shared parents are no error. */
  lemma RootLoadSucceeds(st: Store, ref: string)
    ensures Load(st, None, ref, {}, 0).Success? <==>
      && st.resolve(None, ref).Some?
      && forall p :: Walk(st, st.resolve(None, ref).value, p) ==>
           |p| <= 9 && NoDup(p) && Sound(st, p[|p| - 1])
  {
    hide Load, Sound, Extends;
    LoadSucceeds(st, None, ref, {}, 0);
    if st.resolve(None, ref).Some? {
      var root := st.resolve(None, ref).value;
      assert forall p :: Walk(st, root, p) ==>
        (Fits(st, p, {}, 0) <==> |p| <= MAX_EXTENDS_DEPTH + 1 && NoDup(p) && Sound(st, p[|p| - 1]));
    }
  }

  // ------------------------------------------- the nested load is a flat merge

  /** The files below `id` in the order they are merged: what a file extends before the file itself, a
      shared parent once for every path to it. */
  function PostOrder(st: Store, id: FileId, depth: nat): seq<FileId>
    decreases Left(depth), 0
  {
    if depth > MAX_EXTENDS_DEPTH then [] else ParentsOrder(st, id, Refs(st, id), depth + 1) + [id]
  }

  function ParentsOrder(st: Store, id: FileId, refs: seq<string>, depth: nat): seq<FileId>
    decreases Left(depth), |refs| + 1
  {
    if refs == [] then []
    else
      (if st.resolve(Some(id), refs[0]).Some? then PostOrder(st, st.resolve(Some(id), refs[0]).value, depth) else [])
      + ParentsOrder(st, id, refs[1..], depth)
  }

  function Contents(st: Store, ids: seq<FileId>): (r: seq<Value>)
    ensures |r| == |ids| && forall i :: 0 <= i < |ids| ==> r[i] == Own(st, ids[i])
  {
    seq(|ids|, i requires 0 <= i < |ids| => Own(st, ids[i]))
  }

  lemma ContentsConcat(st: Store, xs: seq<FileId>, ys: seq<FileId>)
    ensures Contents(st, xs + ys) == Contents(st, xs) + Contents(st, ys)
  {
  }

  lemma {:induction false} LoadIsFlat(st: Store, from: Option<FileId>, ref: string, visited: set<FileId>, depth: nat)
    requires Load(st, from, ref, visited, depth).Success?
    requires st.resolve(from, ref).Some?
    requires AllTidy(Contents(st, ParentsOrder(st, st.resolve(from, ref).value, Refs(st, st.resolve(from, ref).value), depth + 1)))
    ensures depth <= MAX_EXTENDS_DEPTH
    ensures Load(st, from, ref, visited, depth).value
         == MergeAll(Contents(st, PostOrder(st, st.resolve(from, ref).value, depth)))
    decreases Left(depth), 0
  {
    hide Merge, Own, Refs, Tidy;
    var id := st.resolve(from, ref).value;
    var below := ParentsOrder(st, id, Refs(st, id), depth + 1);
    ParentsAreFlat(st, id, Refs(st, id), visited + {id}, depth + 1, []);
    ContentsConcat(st, below, [id]);
    assert Contents(st, below + [id])[..|below|] == Contents(st, below);
    assert [] + Contents(st, below) == Contents(st, below);
  }

  lemma {:induction false} ParentsAreFlat(st: Store, id: FileId, refs: seq<string>, visited: set<FileId>, depth: nat, before: seq<Value>)
    requires LoadParents(st, id, refs, visited, depth, MergeAll(before)).Success?
    requires AllTidy(Contents(st, ParentsOrder(st, id, refs, depth)))
    ensures LoadParents(st, id, refs, visited, depth, MergeAll(before)).value
         == MergeAll(before + Contents(st, ParentsOrder(st, id, refs, depth)))
    decreases Left(depth), |refs| + 1
  {
    hide Merge, Own, Refs, Tidy, Load, PostOrder, MergeAll;
    if refs == [] {
      assert before + Contents(st, []) == before;
    } else {
      var v := Load(st, Some(id), refs[0], visited, depth).value;
      LoadResolves(st, Some(id), refs[0], visited, depth);
      var parent := st.resolve(Some(id), refs[0]).value;
      var first, rest := PostOrder(st, parent, depth), ParentsOrder(st, id, refs[1..], depth);
      PostOrderEnds(st, parent, depth);
      ContentsConcat(st, first, rest);
      TidyParts(Contents(st, first), Contents(st, rest));
      ContentsConcat(st, ParentsOrder(st, parent, Refs(st, parent), depth + 1), [parent]);
      TidyParts(Contents(st, ParentsOrder(st, parent, Refs(st, parent), depth + 1)), Contents(st, [parent]));
      LoadIsFlat(st, Some(id), refs[0], visited, depth);
      MergeAllGroups(before, Contents(st, first));
      ParentsAreFlat(st, id, refs[1..], visited, depth, before + Contents(st, first));
      assert before + (Contents(st, first) + Contents(st, rest)) == before + Contents(st, first) + Contents(st, rest);
    }
  }

  lemma TidyParts(xs: seq<Value>, ys: seq<Value>)
    requires AllTidy(xs + ys)
    ensures AllTidy(xs) && AllTidy(ys)
    ensures xs != [] ==> AllTidy(xs[..|xs| - 1])
  {
    hide Tidy;
    forall i | 0 <= i < |xs| ensures Tidy(xs[i]) {
      assert (xs + ys)[i] == xs[i];
    }
    forall i | 0 <= i < |ys| ensures Tidy(ys[i]) {
      assert (xs + ys)[|xs| + i] == ys[i];
    }
  }

  lemma LoadResolves(st: Store, from: Option<FileId>, ref: string, visited: set<FileId>, depth: nat)
    requires Load(st, from, ref, visited, depth).Success?
    ensures st.resolve(from, ref).Some? && depth <= MAX_EXTENDS_DEPTH
  {
  }

  lemma PostOrderEnds(st: Store, id: FileId, depth: nat)
    requires depth <= MAX_EXTENDS_DEPTH
    ensures PostOrder(st, id, depth) == ParentsOrder(st, id, Refs(st, id), depth + 1) + [id]
    ensures Contents(st, PostOrder(st, id, depth)) != []
  {
  }

  /** The recursive load is one left-to-right merge over the post-order of the files, when every file but
      the root has source lists of distinct identities. */
  lemma NestedLoadIsFlatMerge(st: Store, ref: string)
    requires Load(st, None, ref, {}, 0).Success?
    requires st.resolve(None, ref).Some?
    requires var order := PostOrder(st, st.resolve(None, ref).value, 0);
      forall i :: 0 <= i < |order| - 1 ==> Tidy(Own(st, order[i]))
    ensures Load(st, None, ref, {}, 0).value == MergeAll(Contents(st, PostOrder(st, st.resolve(None, ref).value, 0)))
  {
    hide Load, Own, Refs, Tidy, PostOrder, MergeAll;
    var root := st.resolve(None, ref).value;
    PostOrderEnds(st, root, 0);
    var below := ParentsOrder(st, root, Refs(st, root), 1);
    forall i | 0 <= i < |below| ensures Tidy(Contents(st, below)[i]) {
      assert PostOrder(st, root, 0)[i] == below[i];
    }
    LoadIsFlat(st, None, ref, {}, 0);
  }

  /** The files merged are exactly those some walk of at most nine files leads to. */
  lemma {:induction false} PostOrderReaches(st: Store, id: FileId, depth: nat, x: FileId)
    ensures x in PostOrder(st, id, depth) <==>
      exists p :: Walk(st, id, p) && |p| + depth <= 9 && p[|p| - 1] == x
    decreases Left(depth), 0
  {
    hide Refs, Extends;
    if depth <= MAX_EXTENDS_DEPTH {
      var refs := Refs(st, id);
      ParentsOrderReaches(st, id, refs, depth + 1, x);
      if x == id {
        SingleWalk(st, id);
        assert [id][|[id]| - 1] == x;
      }
      if r :| r in refs && RefReaches(st, id, r, depth + 1, x) {
        var b := st.resolve(Some(id), r).value;
        var p :| Walk(st, b, p) && |p| + depth + 1 <= MAX_EXTENDS_DEPTH + 1 && p[|p| - 1] == x;
        ExtendsBy(st, id, r);
        WalkPrepends(st, id, b, p);
        assert ([id] + p)[|[id] + p| - 1] == x;
      }
      if p :| Walk(st, id, p) && |p| + depth <= MAX_EXTENDS_DEPTH + 1 && p[|p| - 1] == x && |p| > 1 {
        WalkTail(st, id, p);
        var r := ExtendsRef(st, id, p[1]);
        assert p[1..][|p[1..]| - 1] == x;
        assert RefReaches(st, id, r, depth + 1, x);
      }
    }
  }

  ghost predicate RefReaches(st: Store, id: FileId, r: string, depth: nat, x: FileId) {
    && st.resolve(Some(id), r).Some?
    && exists p :: Walk(st, st.resolve(Some(id), r).value, p) && |p| + depth <= MAX_EXTENDS_DEPTH + 1 && p[|p| - 1] == x
  }

  lemma ExtendsBy(st: Store, id: FileId, r: string)
    requires r in Refs(st, id) && st.resolve(Some(id), r).Some?
    ensures Extends(st, id, st.resolve(Some(id), r).value)
  {
  }

  lemma ExtendsRef(st: Store, id: FileId, b: FileId) returns (r: string)
    requires Extends(st, id, b)
    ensures r in Refs(st, id) && st.resolve(Some(id), r) == Some(b)
  {
    r :| r in Refs(st, id) && st.resolve(Some(id), r) == Some(b);
  }

  lemma {:induction false} ParentsOrderReaches(st: Store, id: FileId, refs: seq<string>, depth: nat, x: FileId)
    ensures x in ParentsOrder(st, id, refs, depth) <==> exists r :: r in refs && RefReaches(st, id, r, depth, x)
    decreases Left(depth), |refs| + 1
  {
    hide Refs, Extends, PostOrder, Walk;
    if refs != [] {
      var here := if st.resolve(Some(id), refs[0]).Some? then PostOrder(st, st.resolve(Some(id), refs[0]).value, depth) else [];
      assert x in here <==> RefReaches(st, id, refs[0], depth, x) by {
        if st.resolve(Some(id), refs[0]).Some? {
          PostOrderReaches(st, st.resolve(Some(id), refs[0]).value, depth, x);
        }
      }
      ParentsOrderReaches(st, id, refs[1..], depth, x);
      assert ParentsOrder(st, id, refs, depth) == here + ParentsOrder(st, id, refs[1..], depth);
      SplitFirst(st, id, refs, depth, x);
    }
  }

  lemma SplitFirst(st: Store, id: FileId, refs: seq<string>, depth: nat, x: FileId)
    requires refs != []
    ensures (exists r :: r in refs && RefReaches(st, id, r, depth, x))
       <==> RefReaches(st, id, refs[0], depth, x) || exists r :: r in refs[1..] && RefReaches(st, id, r, depth, x)
  {
    hide RefReaches;
    assert forall r :: r in refs <==> r == refs[0] || r in refs[1..];
  }
}
