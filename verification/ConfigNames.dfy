/** Removing single names from one entry's selector list, down to dropping the whole entry with the last
    of its names; an entry with a wildcard or with object-form names is refused, and every other entry stays. */
module ConfigNames {
  import opened Collections
  import opened YamlLines
  import opened TextLines
  import opened SectionItems
  import opened ConfigEdit
  import opened ConfigFile

  datatype NameError = ManyMatch | NoList | WildcardEntry | ObjectForm | MissingName

  datatype Outcome = NotFound | WholeItem | NamesGone

  // ----------------------------------------------------------- rows of a selector list

  /** What a line below the selector field is: the end of its list, nothing of interest, or a name. */
  datatype Row = Stop | Skip | NameRow(body: string)

  function RowOf(line: string, d: nat): Row {
    var t := TrimStart(line);
    if t == [] then Skip
    else if IndentOf(line) <= d then Stop
    else if DashSpace(t) then NameRow(Trim(t[2..]))
    else Skip
  }

  function RowName(body: string): string { Strip(Strip(body, '"'), '\'') }

  function NamesOf(lines: seq<string>, d: nat): seq<string> {
    if lines == [] then []
    else match RowOf(lines[0], d)
      case Stop => []
      case Skip => NamesOf(lines[1..], d)
      case NameRow(body) => [RowName(body)] + NamesOf(lines[1..], d)
  }

  predicate HasObject(lines: seq<string>, d: nat) {
    if lines == [] then false
    else match RowOf(lines[0], d)
      case Stop => false
      case Skip => HasObject(lines[1..], d)
      case NameRow(body) => ':' in body || HasObject(lines[1..], d)
  }

  /** The lines without the rows of these names. */
  function Drop(lines: seq<string>, d: nat, names: seq<string>): seq<string> {
    if lines == [] then []
    else match RowOf(lines[0], d)
      case Stop => lines
      case Skip => [lines[0]] + Drop(lines[1..], d, names)
      case NameRow(body) => (if RowName(body) in names then [] else [lines[0]]) + Drop(lines[1..], d, names)
  }

  function Keep(have: seq<string>, names: seq<string>): seq<string> {
    if have == [] then [] else (if have[0] in names then [] else [have[0]]) + Keep(have[1..], names)
  }

  /** Dropping rows removes exactly those names from the list that is read back. */
  lemma {:induction false} DropKeepsTheRest(lines: seq<string>, d: nat, names: seq<string>)
    ensures NamesOf(Drop(lines, d, names), d) == Keep(NamesOf(lines, d), names)
    decreases |lines|
  {
    hide RowOf, RowName;
    if lines != [] {
      DropKeepsTheRest(lines[1..], d, names);
      var rest := Drop(lines[1..], d, names);
      assert ([lines[0]] + rest)[1..] == rest && [] + rest == rest;
    }
  }

  lemma {:induction false} DropIsWithin(lines: seq<string>, d: nat, names: seq<string>)
    ensures forall l :: l in Drop(lines, d, names) ==> l in lines
    decreases |lines|
  {
    hide RowOf, RowName;
    if lines != [] {
      DropIsWithin(lines[1..], d, names);
    }
  }

  lemma {:induction false} KeepIs(have: seq<string>, names: seq<string>, n: string)
    ensures n in Keep(have, names) <==> n in have && n !in names
  {
    if have != [] {
      KeepIs(have[1..], names, n);
    }
  }

  /** A row without a colon carries no field. */
  lemma RowIsNoField(line: string, d: nat)
    requires RowOf(line, d).NameRow? && ':' !in RowOf(line, d).body
    ensures FieldOf(line) == NoField
  {
    hide IsSpace, TrimStart, IndentOf, Find;
    var t := TrimStart(line);
    NoColon(t[2..]);
  }

  lemma NoColon(t: string)
    requires ':' !in Trim(t)
    ensures KeyValue(TrimStart(t)) == None
  {
    hide IsSpace;
    var s := TrimStart(t);
    if i :| 0 <= i < |s| && s[i] == ':' {
      ColonStays(s, i);
    }
  }

  lemma ColonStays(s: string, i: nat)
    requires i < |s| && s[i] == ':'
    ensures ':' in TrimEnd(s)
  {
    MarksAreNoSpace();
    TrimEndKeeps(s, i);
    TrimEndIsPrefix(s);
    assert TrimEnd(s)[i] == ':';
  }

  /** Dropping plain names changes no field of the entry. */
  lemma {:induction false} DropKeepsFields(lines: seq<string>, d: nat, names: seq<string>)
    requires !HasObject(lines, d)
    ensures Fields(Drop(lines, d, names)) == Fields(lines)
    decreases |lines|
  {
    hide RowOf, RowName, Fields, FieldOf;
    if lines != [] && RowOf(lines[0], d) != Stop {
      var l, rest := lines[0], lines[1..];
      DropKeepsFields(rest, d, names);
      assert lines == [l] + rest;
      FieldsConcat([l], rest);
      FieldsConcat([l], Drop(rest, d, names));
      if RowOf(l, d).NameRow? {
        RowIsNoField(l, d);
        OneField(l);
        assert [] + Drop(rest, d, names) == Drop(rest, d, names);
      }
    }
  }

  // ------------------------------------------------------------------ one item

  /** The line gives the field `key`. */
  predicate Gives(line: string, key: string) {
    FieldKv(line).Some? && FieldKv(line).value.0 == key
  }

  /** The first line that gives the selector field, or the end. */
  function SelectorAt(item: seq<string>, key: string): (f: nat)
    ensures f <= |item|
  {
    if item == [] || Gives(item[0], key) then 0 else 1 + SelectorAt(item[1..], key)
  }

  lemma {:induction false} SelectorAtFinds(item: seq<string>, key: string)
    ensures var f := SelectorAt(item, key);
      (f < |item| ==> Gives(item[f], key)) && forall i :: 0 <= i < f ==> !Gives(item[i], key)
  {
    hide Gives;
    if item != [] && !Gives(item[0], key) {
      SelectorAtFinds(item[1..], key);
    }
  }

  lemma SelectorAtIs(item: seq<string>, key: string, f: nat)
    requires f <= |item| && (f < |item| ==> Gives(item[f], key))
    requires forall i :: 0 <= i < f ==> !Gives(item[i], key)
    ensures SelectorAt(item, key) == f
  {
    hide Gives, SelectorAt;
    SelectorAtFinds(item, key);
  }

  /** What the selector field has on its own line. */
  function ValueOn(line: string): string {
    if FieldKv(line).Some? then FieldKv(line).value.1 else ""
  }

  /** The names an entry selects one by one. */
  function ItemNames(item: seq<string>, key: string): seq<string> {
    var f := SelectorAt(item, key);
    if f == |item| then [] else NamesOf(item[f + 1..], IndentOf(item[f]))
  }

  /** The item without these names; none when no name would be left. */
  function EditItem(item: seq<string>, key: string, names: seq<string>): Result<Option<seq<string>>, NameError> {
    var f := SelectorAt(item, key);
    if f == |item| then Failure(NoList)
    else if ValueOn(item[f]) != "" then Failure(WildcardEntry)
    else
      var d, rows := IndentOf(item[f]), item[f + 1..];
      if HasObject(rows, d) then Failure(ObjectForm)
      else if exists i :: 0 <= i < |names| && names[i] !in NamesOf(rows, d) then Failure(MissingName)
      else if Keep(NamesOf(rows, d), names) == [] then Success(None)
      else Success(Some(item[..f + 1] + Drop(rows, d, names)))
  }

  /** An edited item is still one item, with the same fields, no new lines, and exactly the other names. */
  lemma EditedItem(item: seq<string>, key: string, names: seq<string>, d: nat)
    requires WellItem(item, d) && EditItem(item, key, names).Success? && EditItem(item, key, names).value.Some?
    ensures var after := EditItem(item, key, names).value.value;
      && WellItem(after, d) && Fields(after) == Fields(item) && (forall l :: l in after ==> l in item)
      && ItemNames(after, key) == Keep(ItemNames(item, key), names) != []
      && forall n :: n in names ==> n in ItemNames(item, key)
  {
    hide Gives, ValueOn, IndentOf, HasObject, Drop, NamesOf, Fields, IsDash, Keep;
    var f := SelectorAt(item, key);
    var ind, rows := IndentOf(item[f]), item[f + 1..];
    var after := EditItem(item, key, names).value.value;
    var front, rest := item[..f + 1], Drop(rows, ind, names);
    assert item == front + rows;
    DropIsWithin(rows, ind, names);
    DropKeepsFields(rows, ind, names);
    FieldsConcat(front, rows);
    FieldsConcat(front, rest);
    DropKeepsTheRest(rows, ind, names);
    SelectorAtFinds(item, key);
    assert forall i :: 0 <= i <= f ==> after[i] == item[i];
    SelectorAtIs(after, key, f);
    assert after[f + 1..] == rest;
    assert forall l :: l in rows ==> l in item;
    StartsOnlyOnce(item, front, rest, d);
    forall n | n in names ensures n in ItemNames(item, key) {
      var i :| 0 <= i < |names| && names[i] == n;
    }
  }

  lemma StartsOnlyOnce(item: seq<string>, front: seq<string>, rest: seq<string>, d: nat)
    requires WellItem(item, d) && front != [] && front <= item && forall l :: l in rest ==> l in item[|front|..]
    ensures WellItem(front + rest, d)
  {
    hide IsStart;
    forall i | 0 <= i < |rest| ensures !IsStart(rest[i], d) {
      assert rest[i] in item[|front|..];
      var j :| 0 <= j < |item[|front|..]| && item[|front|..][j] == rest[i];
      assert item[1..][|front| + j - 1] == rest[i];
    }
    forall i | 1 <= i < |front| ensures !IsStart(front[i], d) {
      assert item[1..][i - 1] == front[i];
    }
    var all := front + rest;
    assert forall i :: 0 <= i < |all| - 1 ==> all[1..][i] == all[i + 1];
  }

  // --------------------------------------------------------------- one section

  function WithItem(body: seq<string>, k: nat, item: seq<string>): seq<string>
    requires k < |Items(body).items|
  {
    Items(body).pre + Flat(Items(body).items[k := item])
  }

  ghost predicate Within(a: seq<string>, b: seq<string>) { forall l :: l in a ==> l in b }

  lemma FlatReplaced(items: seq<seq<string>>, k: nat, item: seq<string>)
    requires k < |items|
    ensures Flat(items[k := item]) == Flat(items[..k]) + item + Flat(items[k + 1..])
  {
    hide Flat;
    var r := items[k := item];
    FlatWithout(r, k);
    assert r[..k] == items[..k] && r[k + 1..] == items[k + 1..];
  }

  lemma WithItemWithin(body: seq<string>, k: nat, item: seq<string>)
    requires k < |Items(body).items| && Within(item, Items(body).items[k])
    ensures Within(WithItem(body, k, item), body)
  {
    hide Items, Flat;
    ItemsAre(body);
    var c := Items(body);
    FlatWithout(c.items, k);
    FlatReplaced(c.items, k, item);
  }

  lemma ShallowWithin(a: seq<string>, b: seq<string>, d: nat)
    requires Within(a, b) && NoShallower(b, d)
    ensures NoShallower(a, d)
  {
    hide IsDash, IndentOf;
    forall i | 0 <= i < |a| && IsDash(a[i]) ensures d <= IndentOf(a[i]) {
      assert a[i] in b;
      var j :| 0 <= j < |b| && b[j] == a[i];
    }
  }

  /** Replacing one item by one with the same fields and no other lines changes nothing else. */
  lemma ReplaceItem(body: seq<string>, k: nat, item: seq<string>)
    requires k < |Items(body).items| && MinDash(body).Some? && WellItem(item, MinDash(body).value)
    requires Within(item, Items(body).items[k]) && Fields(item) == Fields(Items(body).items[k])
    ensures Items(WithItem(body, k, item)) == Chunks(Items(body).pre, Items(body).items[k := item])
    ensures Entries(WithItem(body, k, item)) == Entries(body)
  {
    hide MinDash, Fields, Items, Flat, WellItem, NoStart, NoShallower, Within, IsDash;
    var c, d := Items(body), MinDash(body).value;
    ItemsAre(body);
    MinDashBounds(body);
    WithItemWithin(body, k, item);
    ShallowWithin(WithItem(body, k, item), body, d);
    var r := Chunks(c.pre, c.items[k := item]);
    ItemsFrom(r, d);
    assert EntriesOf(r.items) == EntriesOf(c.items);
  }

  // ------------------------------------------------------------- the whole file

  datatype NamesResult = Unmatched | WholeItemGone(lines: seq<string>) | SomeGone(lines: seq<string>)

  function RemoveNamesLines(lines: seq<string>, section: Section, q: Query, names: seq<string>): Result<NamesResult, NameError> {
    var key := KeyOf(section);
    match BodyOf(lines, key)
    case None => Success(Unmatched)
    case Some(body) =>
      var found := Matching(Entries(body), q);
      if |found| == 0 then Success(Unmatched)
      else if |found| > 1 then Failure(ManyMatch)
      else
        var i, k := FirstKey(lines, key), found[0];
        match EditItem(Items(body).items[k], key, names)
        case Failure(e) => Failure(e)
        case Success(None) =>
          Success(WholeItemGone(lines[..i] + [lines[i]] + WithoutItem(body, k) + RestOf(lines, key)))
        case Success(Some(item)) =>
          Success(SomeGone(lines[..i] + [lines[i]] + WithItem(body, k, item) + RestOf(lines, key)))
  }

  function RemoveNamesText(text: string, section: Section, q: Query, names: seq<string>): Result<(string, Outcome), NameError> {
    match RemoveNamesLines(Lines(text), section, q, names)
    case Failure(e) => Failure(e)
    case Success(Unmatched) => Success((text, NotFound))
    case Success(WholeItemGone(lines)) => Success((Join(lines, text), WholeItem))
    case Success(SomeGone(lines)) => Success((Join(lines, text), NamesGone))
  }

  lemma TopKeysWithin(a: seq<string>, b: seq<string>)
    requires Within(a, b) && NoTopKeys(b)
    ensures NoTopKeys(a)
  {
    hide TopLevelKey;
    forall i | 0 <= i < |a| ensures TopLevelKey(a[i]) == None {
      assert a[i] in b;
      var j :| 0 <= j < |b| && b[j] == a[i];
    }
  }

  /** When some names go and some stay: the section keeps its list of entries, and its items but for the one
      matched, which loses exactly the given names (all of them its own) and keeps at least one; and
      every other section keeps its lines. */
  lemma SomeNamesGone(lines: seq<string>, section: Section, q: Query, names: seq<string>)
    requires RemoveNamesLines(lines, section, q, names).Success? && RemoveNamesLines(lines, section, q, names).value.SomeGone?
    ensures BodyOf(lines, KeyOf(section)).Some?
    ensures var after := RemoveNamesLines(lines, section, q, names).value.lines;
      && BodyOf(after, KeyOf(section)).Some? && EntriesIn(after, section) == EntriesIn(lines, section)
      && (forall other :: other != section ==> BodyOf(after, KeyOf(other)) == BodyOf(lines, KeyOf(other)))
    ensures var was, now := Items(BodyOf(lines, KeyOf(section)).value).items,
        Items(BodyOf(RemoveNamesLines(lines, section, q, names).value.lines, KeyOf(section)).value).items;
      exists k :: 0 <= k < |was| && |now| == |was| && Matches(Fields(was[k]), q)
        && (forall j :: 0 <= j < |was| && j != k ==> now[j] == was[j])
        && ItemNames(now[k], KeyOf(section)) == Keep(ItemNames(was[k], KeyOf(section)), names) != []
        && (forall n :: n in names ==> n in ItemNames(was[k], KeyOf(section)))
  {
    hide TopLevelKey, FirstKey, NextTop, KeyOf, Items, Matching, WithItem, BodyOf, RestOf, EditItem, MinDash, Fields,
      WellItem, NoTopKeys, Matches, ItemNames, Keep;
    var key, body, rest := KeyOf(section), BodyOf(lines, KeyOf(section)).value, RestOf(lines, KeyOf(section));
    var i := FirstKey(lines, key);
    SectionSplits(lines, key);
    ItemsAre(body);
    var c, k := Items(body), Matching(Entries(body), q)[0];
    EntriesCount(body);
    assert Matches(Fields(c.items[k]), q);
    var d := MinDash(body).value;
    assert WellItem(c.items[k], d);
    var item := EditItem(c.items[k], key, names).value.value;
    EditedItem(c.items[k], key, names, d);
    ReplaceItem(body, k, item);
    WithItemWithin(body, k, item);
    TopKeysWithin(WithItem(body, k, item), body);
    BodyIs(lines[..i], lines[i], WithItem(body, k, item), rest, key);
    var after := RemoveNamesLines(lines, section, q, names).value.lines;
    forall other | other != section ensures BodyOf(after, KeyOf(other)) == BodyOf(lines, KeyOf(other)) {
      KeysAreApart(section, other);
      OthersKept(lines[..i], lines[i], lines[i], body, WithItem(body, k, item), rest, key, KeyOf(other));
    }
    assert Items(WithItem(body, k, item)).items == c.items[k := item];
  }

  /** With its last name the entry goes: the same edit as removing the entry, and exactly when every name it
      selects was given. */
  lemma LastNameDropsEntry(lines: seq<string>, section: Section, q: Query, names: seq<string>)
    requires RemoveNamesLines(lines, section, q, names).Success? && !RemoveNamesLines(lines, section, q, names).value.Unmatched?
    ensures RemoveLines(lines, section, q).Success? && RemoveLines(lines, section, q).value.Some?
    ensures BodyOf(lines, KeyOf(section)).Some?
    ensures var r := RemoveNamesLines(lines, section, q, names).value;
      r.WholeItemGone? ==> RemoveLines(lines, section, q) == Success(Some(r.lines))
    ensures var body := BodyOf(lines, KeyOf(section)).value;
      exists k :: 0 <= k < |Items(body).items| && Matches(Entries(body)[k], q)
        && (RemoveNamesLines(lines, section, q, names).value.WholeItemGone?
            <==> forall n :: n in ItemNames(Items(body).items[k], KeyOf(section)) ==> n in names)
  {
    hide TopLevelKey, FirstKey, NextTop, KeyOf, Items, Matching, WithItem, WithoutItem, BodyOf, RestOf, Fields, Matches,
      Keep, NamesOf, HasObject, Drop, Gives, ValueOn;
    var key, body := KeyOf(section), BodyOf(lines, KeyOf(section)).value;
    var k := Matching(Entries(body), q)[0];
    EntriesCount(body);
    var item := Items(body).items[k];
    NothingKept(ItemNames(item, key), names);
    assert Matches(Entries(body)[k], q);
  }

  lemma NothingKept(have: seq<string>, names: seq<string>)
    ensures Keep(have, names) == [] <==> forall n :: n in have ==> n in names
  {
    hide Keep;
    forall n ensures n in Keep(have, names) <==> n in have && n !in names {
      KeepIs(have, names, n);
    }
    if Keep(have, names) != [] {
      assert Keep(have, names)[0] in Keep(have, names);
    }
  }

  /** The outcomes of `remove_names` that touch nothing, told on the entries. */
  lemma NamesMatching(lines: seq<string>, section: Section, q: Query, names: seq<string>)
    ensures var entries, r := EntriesIn(lines, section), RemoveNamesLines(lines, section, q, names);
      && (r == Success(Unmatched) <==> forall k :: 0 <= k < |entries| ==> !Matches(entries[k], q))
      && (r == Failure(ManyMatch) <==> exists j, k :: 0 <= j < k < |entries| && Matches(entries[j], q) && Matches(entries[k], q))
  {
    hide TopLevelKey, FirstKey, KeyOf, Items, Matching, WithItem, WithoutItem, BodyOf, RestOf, Entries, Matches, EditItem;
    if BodyOf(lines, KeyOf(section)).Some? {
      var body := BodyOf(lines, KeyOf(section)).value;
      MatchingCounts(Entries(body), q);
      assert EntriesIn(lines, section) == Entries(body);
      EntriesCount(body);
      var found := Matching(Entries(body), q);
      if |found| == 1 {
        EditNeverMany(Items(body).items[found[0]], KeyOf(section), names);
      }
    }
  }

  lemma EditNeverMany(item: seq<string>, key: string, names: seq<string>)
    ensures EditItem(item, key, names) != Failure(ManyMatch)
  {
    hide NamesOf, HasObject, Drop, Keep, Gives, ValueOn;
  }

  // -------------------------------------------------------------- the line loops

  function RemoveAt<T>(s: seq<T>, i: nat): seq<T>
    requires i < |s|
  {
    s[..i] + s[i + 1..]
  }

  ghost predicate Rising(dels: seq<nat>, n: nat) {
    (forall i :: 0 <= i < |dels| ==> dels[i] < n) && forall i, j :: 0 <= i < j < |dels| ==> dels[i] < dels[j]
  }

  /** The lines after deleting these places, the last first. */
  function Delete(lines: seq<string>, dels: seq<nat>): seq<string>
    requires Rising(dels, |lines|)
    decreases |dels|
  {
    if dels == [] then lines else Delete(RemoveAt(lines, dels[|dels| - 1]), dels[..|dels| - 1])
  }

  /** The rows of names from line `a` on, with their places. */
  function NameRows(lines: seq<string>, a: nat, end: nat, d: nat): seq<(nat, string)>
    requires a <= end <= |lines|
    decreases end - a
  {
    if a == end then []
    else match RowOf(lines[a], d)
      case Stop => []
      case Skip => NameRows(lines, a + 1, end, d)
      case NameRow(body) => [(a, RowName(body))] + NameRows(lines, a + 1, end, d)
  }

  function Places(rows: seq<(nat, string)>, names: seq<string>): seq<nat> {
    if rows == [] then [] else (if rows[0].1 in names then [rows[0].0] else []) + Places(rows[1..], names)
  }

  function Seconds(rows: seq<(nat, string)>): (r: seq<string>)
    ensures |r| == |rows| && forall i :: 0 <= i < |rows| ==> r[i] == rows[i].1
  {
    if rows == [] then [] else [rows[0].1] + Seconds(rows[1..])
  }

  lemma StepSlice(lines: seq<string>, a: nat, end: nat)
    requires a < end <= |lines|
    ensures lines[a..end] != [] && lines[a..end][0] == lines[a] && lines[a..end][1..] == lines[a + 1..end]
  {
  }

  lemma {:induction false} RowsAreNames(lines: seq<string>, a: nat, end: nat, d: nat)
    requires a <= end <= |lines|
    ensures Seconds(NameRows(lines, a, end, d)) == NamesOf(lines[a..end], d)
    decreases end - a
  {
    hide RowOf, RowName;
    if a < end {
      StepSlice(lines, a, end);
      RowsAreNames(lines, a + 1, end, d);
      if RowOf(lines[a], d).NameRow? {
        var rest := NameRows(lines, a + 1, end, d);
        assert NameRows(lines, a, end, d)[1..] == rest;
      }
    }
  }

  lemma {:induction false} PlacesRise(lines: seq<string>, a: nat, end: nat, d: nat, names: seq<string>)
    requires a <= end <= |lines|
    ensures Rising(Places(NameRows(lines, a, end, d), names), |lines|)
    ensures forall i :: 0 <= i < |Places(NameRows(lines, a, end, d), names)| ==> a <= Places(NameRows(lines, a, end, d), names)[i]
    decreases end - a
  {
    hide RowOf, RowName;
    if a < end {
      PlacesRise(lines, a + 1, end, d, names);
      if RowOf(lines[a], d).NameRow? {
        assert NameRows(lines, a, end, d)[1..] == NameRows(lines, a + 1, end, d);
      }
    }
  }

  lemma RisingInit(s: seq<nat>, n: nat)
    requires Rising(s, n) && s != []
    ensures s[|s| - 1] < n && Rising(s[..|s| - 1], s[|s| - 1])
  {
  }

  lemma RisingMore(s: seq<nat>, a: nat, b: nat)
    requires Rising(s, a) && a <= b
    ensures Rising(s, b)
  {
  }

  lemma RisingParts(p: nat, rest: seq<nat>, n: nat)
    requires Rising([p] + rest, n) && Rising(rest, n) && rest != []
    ensures var m := |rest| - 1;
      && p < rest[m] < n && Rising([p] + rest[..m], n - 1) && Rising(rest[..m], n - 1)
      && ([p] + rest)[|[p] + rest| - 1] == rest[m] && ([p] + rest)[..|[p] + rest| - 1] == [p] + rest[..m]
  {
    var all, m := [p] + rest, |rest| - 1;
    RisingInit(all, n);
    RisingInit(rest, n);
    assert all[|all| - 1] == rest[m] && all[..|all| - 1] == [p] + rest[..m];
    assert all[..|all| - 1][0] == p;
    RisingMore([p] + rest[..m], rest[m], n - 1);
    RisingMore(rest[..m], rest[m], n - 1);
  }

  lemma RemoveKeepsFront<T>(s: seq<T>, i: nat, p: nat)
    requires p <= i < |s|
    ensures |RemoveAt(s, i)| == |s| - 1 && RemoveAt(s, i)[..p] == s[..p]
  {
  }

  lemma {:induction false} DeleteFirst(lines: seq<string>, p: nat, rest: seq<nat>)
    requires Rising([p] + rest, |lines|) && Rising(rest, |lines|)
    ensures p < |lines| && p < |Delete(lines, rest)|
    ensures Delete(lines, [p] + rest) == RemoveAt(Delete(lines, rest), p)
    ensures Delete(lines, rest)[..p] == lines[..p]
    decreases |rest|
  {
    hide RemoveAt, Rising;
    if rest == [] {
      assert [p] + rest == [p];
      OneDeleted(lines, p);
    } else {
      var n := |rest| - 1;
      RisingParts(p, rest, |lines|);
      RemoveKeepsFront(lines, rest[n], p);
      DeleteFirst(RemoveAt(lines, rest[n]), p, rest[..n]);
    }
  }

  lemma OneDeleted(lines: seq<string>, p: nat)
    requires Rising([p], |lines|)
    ensures p < |lines| && Delete(lines, [p]) == RemoveAt(lines, p)
  {
    assert [p][0] == p && [p][..0] == [];
  }

  /** Deleting the places of the named rows drops those rows and nothing else. */
  lemma {:induction false} DeleteIsDrop(lines: seq<string>, a: nat, end: nat, d: nat, names: seq<string>)
    requires a <= end <= |lines|
    requires Rising(Places(NameRows(lines, a, end, d), names), |lines|)
    ensures Delete(lines, Places(NameRows(lines, a, end, d), names)) == lines[..a] + Drop(lines[a..end], d, names) + lines[end..]
    decreases end - a
  {
    hide RowOf, RowName, Rising, Delete, RemoveAt;
    var row := if a < end then RowOf(lines[a], d) else Stop;
    if a == end || row.Stop? {
      NothingDeleted(lines);
      assert lines == lines[..a] + lines[a..end] + lines[end..];
      if a < end { StepSlice(lines, a, end); }
    } else {
      StepSlice(lines, a, end);
      PlacesRise(lines, a + 1, end, d, names);
      DeleteIsDrop(lines, a + 1, end, d, names);
      var dels := Places(NameRows(lines, a + 1, end, d), names);
      var tail := Drop(lines[a + 1..end], d, names);
      TakeOneMore(lines, a);
      Regroup(lines[..a], lines[a], tail, lines[end..]);
      if row.NameRow? {
        assert NameRows(lines, a, end, d)[1..] == NameRows(lines, a + 1, end, d);
        assert [] + dels == dels && [] + tail == tail;
        if RowName(row.body) in names {
          DeleteFirst(lines, a, dels);
          OneOut(lines[..a], lines[a], tail, lines[end..]);
        }
      }
    }
  }

  lemma NothingDeleted(lines: seq<string>)
    ensures Rising([], |lines|) && Delete(lines, []) == lines
  {
  }

  lemma Regroup<T>(p: seq<T>, x: T, tail: seq<T>, rest: seq<T>)
    ensures p + [x] + tail + rest == p + ([x] + tail) + rest
  {
  }

  lemma OneOut<T>(p: seq<T>, x: T, tail: seq<T>, rest: seq<T>)
    ensures RemoveAt(p + [x] + tail + rest, |p|) == p + tail + rest
  {
  }

  method FindSelector(lines: seq<string>, start: nat, end: nat, key: string) returns (f: nat)
    requires start <= end <= |lines|
    ensures start <= f <= end && f - start == SelectorAt(lines[start..end], key)
  {
    hide Gives, SelectorAt;
    f := start;
    while f < end && !Gives(lines[f], key)
      invariant start <= f <= end
      invariant forall i :: 0 <= i < f - start ==> !Gives(lines[start..end][i], key)
    {
      f := f + 1;
    }
    SelectorAtIs(lines[start..end], key, f - start);
  }

  method CollectNames(lines: seq<string>, from: nat, end: nat, d: nat) returns (rows: seq<(nat, string)>, nested: bool)
    requires from <= end <= |lines|
    ensures rows == NameRows(lines, from, end, d) && nested == HasObject(lines[from..end], d)
  {
    hide RowOf, RowName;
    rows, nested := [], false;
    for i := from to end
      invariant NameRows(lines, from, end, d) == rows + NameRows(lines, i, end, d)
      invariant HasObject(lines[from..end], d) == (nested || HasObject(lines[i..end], d))
    {
      StepSlice(lines, i, end);
      match RowOf(lines[i], d) {
        case Stop => return;
        case Skip =>
        case NameRow(body) =>
          nested := nested || ':' in body;
          rows := rows + [(i, RowName(body))];
      }
    }
  }

  method PlacesToDelete(rows: seq<(nat, string)>, names: seq<string>) returns (dels: seq<nat>, remaining: nat)
    ensures dels == Places(rows, names) && remaining == |Keep(Seconds(rows), names)|
  {
    dels, remaining := [], 0;
    for i := 0 to |rows|
      invariant Places(rows, names) == dels + Places(rows[i..], names)
      invariant |Keep(Seconds(rows), names)| == remaining + |Keep(Seconds(rows[i..]), names)|
    {
      assert rows[i..][1..] == rows[i + 1..];
      assert Seconds(rows[i..])[1..] == Seconds(rows[i + 1..]);
      if rows[i].1 in names {
        dels := dels + [rows[i].0];
      } else {
        remaining := remaining + 1;
      }
    }
  }

  method DeleteBackwards(lines: seq<string>, dels: seq<nat>) returns (out: seq<string>)
    requires Rising(dels, |lines|)
    ensures out == Delete(lines, dels)
  {
    out := lines;
    assert dels[..|dels|] == dels;
    for j := |dels| downto 0
      invariant Rising(dels[..j], |out|) && Delete(lines, dels) == Delete(out, dels[..j])
    {
      assert dels[..j + 1][..j] == dels[..j];
      out := RemoveAt(out, dels[j]);
    }
  }

  /** The edit of one item, by line numbers: the lines deleted are the item's rows of these names. */
  method EditLines(lines: seq<string>, start: nat, end: nat, key: string, names: seq<string>)
    returns (r: Result<Option<seq<string>>, NameError>)
    requires start <= end <= |lines|
    ensures match EditItem(lines[start..end], key, names)
      case Failure(e) => r == Failure(e)
      case Success(None) => r == Success(None)
      case Success(Some(item)) => r == Success(Some(lines[..start] + item + lines[end..]))
  {
    hide Gives, ValueOn, SelectorAt, NamesOf, HasObject, Drop, Keep, NameRows, Places, Delete, Rising, IndentOf;
    var f := FindSelector(lines, start, end, key);
    if f == end {
      return Failure(NoList);
    }
    ItemLines(lines, start, f, end);
    if ValueOn(lines[f]) != "" {
      return Failure(WildcardEntry);
    }
    var d := IndentOf(lines[f]);
    var rows, nested := CollectNames(lines, f + 1, end, d);
    if nested {
      return Failure(ObjectForm);
    }
    RowsAreNames(lines, f + 1, end, d);
    var i := 0;
    while i < |names| && names[i] in Seconds(rows)
      invariant i <= |names| && forall j :: 0 <= j < i ==> names[j] in Seconds(rows)
    {
      i := i + 1;
    }
    if i < |names| {
      return Failure(MissingName);
    }
    var dels, remaining := PlacesToDelete(rows, names);
    if remaining == 0 {
      return Success(None);
    }
    PlacesRise(lines, f + 1, end, d, names);
    var out := DeleteBackwards(lines, dels);
    DeleteIsDrop(lines, f + 1, end, d, names);
    EditedLines(lines, start, f, end, Drop(lines[f + 1..end], d, names));
    return Success(Some(out));
  }

  lemma ItemLines(lines: seq<string>, start: nat, f: nat, end: nat)
    requires start <= f < end <= |lines|
    ensures lines[start..end][f - start] == lines[f] && lines[start..end][f - start + 1..] == lines[f + 1..end]
    ensures lines[start..end][..f - start + 1] == lines[start..f + 1]
  {
  }

  lemma EditedLines(lines: seq<string>, start: nat, f: nat, end: nat, kept: seq<string>)
    requires start <= f < end <= |lines|
    ensures lines[..f + 1] + kept + lines[end..] == lines[..start] + (lines[start..end][..f - start + 1] + kept) + lines[end..]
  {
  }

  /** The editor's `remove_names`. */
  method RemoveNames(text: string, section: Section, q: Query, names: seq<string>) returns (r: Result<(string, Outcome), NameError>)
    ensures r == RemoveNamesText(text, section, q, names)
  {
    hide FirstKey, NextTop, BodyOf, RestOf, Lines, Joined, MinDash, TopLevelKey, KeyOf, Matching, Items, Fields, WithoutItem,
      Flat, EditItem, WithItem, Entries, Parsed;
    var lines, key := Lines(text), KeyOf(section);
    var idx := FindTopLevel(lines, key);
    if idx == |lines| {
      return Success((text, NotFound));
    }
    var sec_end := NextTopLevel(lines, idx + 1);
    SectionByIndex(lines, key, idx, sec_end);
    var items := ParseItems(lines, idx + 1, sec_end);
    ghost var body := lines[idx + 1..sec_end];
    var found := FindMatch(items, q);
    ParsedEntries(items, lines, idx + 1, sec_end);
    assert seq(|items|, k requires 0 <= k < |items| => items[k].entry) == Entries(body);
    if found.Failure? {
      return Failure(ManyMatch);
    }
    if found.value.None? {
      return Success((text, NotFound));
    }
    var k := found.value.value;
    var start, end := items[k].start, items[k].end;
    ParsedSlice(items, lines, idx + 1, sec_end, k);
    EntriesCount(body);
    var edited := EditLines(lines, start, end, key, names);
    if edited.Failure? {
      return Failure(edited.error);
    }
    if edited.value.None? {
      DrainIs(lines, idx, sec_end, start, end);
      return Success((Join(lines[..start] + lines[end..], text), WholeItem));
    }
    ghost var item := EditItem(lines[start..end], key, names).value.value;
    ItemSplice(body, k, item);
    SpliceIs(lines, idx, sec_end, start, end, item);
    r := Success((Join(edited.value.value, text), NamesGone));
  }

  lemma ParsedSlice(items: seq<ParsedItem>, lines: seq<string>, from: nat, to: nat, k: nat)
    requires from <= to <= |lines| && Parsed(items, lines, from, to) && k < |items|
    ensures k < |Items(lines[from..to]).items|
    ensures var body, item := lines[from..to], items[k];
      && from <= item.start <= item.end <= to && lines[item.start..item.end] == Items(body).items[k]
      && item.start == from + Offset(Items(body), k) && item.end == item.start + |Items(body).items[k]|
      && body[..item.start - from] + body[item.end - from..] == WithoutItem(body, k)
  {
    hide Items, Flat, Fields, WithoutItem, IndentFor, Offset;
    var body, item := lines[from..to], items[k];
    assert ParsedAs(item, Items(body), k, from, IndentFor(body));
    ItemSlice(body, k);
    SubSlice(lines, from, to, item.start - from, item.end - from);
  }

  lemma WithItemParts(body: seq<string>, k: nat, x: seq<string>) returns (a: seq<string>, b: seq<string>)
    requires k < |Items(body).items|
    ensures var c := Items(body);
      && body == c.pre + (a + c.items[k] + b) && WithItem(body, k, x) == c.pre + (a + x + b)
      && Offset(c, k) == |c.pre| + |a|
  {
    hide Items, Flat;
    ItemsAre(body);
    var c := Items(body);
    FlatWithout(c.items, k);
    FlatReplaced(c.items, k, x);
    a, b := Flat(c.items[..k]), Flat(c.items[k + 1..]);
  }

  /** Other lines in the place of item `k`. */
  lemma ItemSplice(body: seq<string>, k: nat, x: seq<string>)
    requires k < |Items(body).items|
    ensures var at, n := Offset(Items(body), k), |Items(body).items[k]|;
      at + n <= |body| && body[..at] + x + body[at + n..] == WithItem(body, k, x)
  {
    hide *;
    var a, b := WithItemParts(body, k, x);
    Replaced(body, Items(body).pre, a, Items(body).items[k], b, x);
  }

  lemma Replaced<T>(body: seq<T>, p: seq<T>, a: seq<T>, m: seq<T>, b: seq<T>, x: seq<T>)
    requires body == p + (a + m + b)
    ensures body[..|p| + |a|] + x + body[|p| + |a| + |m|..] == p + (a + x + b)
  {
    assert body[..|p| + |a|] == p + a;
    assert body[|p| + |a| + |m|..] == b;
  }

  lemma SpliceIs<T>(lines: seq<T>, i: nat, to: nat, start: nat, end: nat, item: seq<T>)
    requires i < |lines| && i + 1 <= start <= end <= to <= |lines|
    ensures var body := lines[i + 1..to];
      lines[..start] + item + lines[end..]
        == lines[..i] + [lines[i]] + (body[..start - i - 1] + item + body[end - i - 1..]) + lines[to..]
  {
  }
}
