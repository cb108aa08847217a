/** What a newly inserted item asks for when the file is read again: its source, the pin under its own key, its
    sub-directory, and exactly the names given, or everything. */
module ConfigSelectors {
  import opened Collections
  import opened YamlLines
  import opened TextLines
  import opened SectionItems
  import opened ConfigEdit
  import opened ConfigNames
  import opened ConfigFile

  // --------------------------------------------------------- rows of new names

  /** Names that read as themselves. */
  ghost predicate PlainNames(selector: Selector) {
    selector.Names? ==> forall n :: n in selector.names ==> Unquoted(n) == n
  }

  lemma NewRow(n: nat, d: nat, name: string)
    requires n > d && Unquoted(name) == name
    ensures var row := RowOf(Spaces(n) + ("- " + name), d); row.NameRow? && RowName(row.body) == name
  {
    hide TrimStart, Trim, IsSpace, IndentOf, FieldKv, TopLevelKey, Strip;
    PaddedDash(n, name);
    TrimStartPadded(n, "- " + name);
    MarksAreNoSpace();
    TrimStartDone("- " + name);
    assert ("- " + name)[2..] == name;
  }

  /** No line ends the list. */
  ghost predicate NoStop(lines: seq<string>, d: nat) {
    forall i :: 0 <= i < |lines| ==> RowOf(lines[i], d) != Stop
  }

  lemma {:induction false} NamesOfConcat(a: seq<string>, b: seq<string>, d: nat)
    requires NoStop(a, d)
    ensures NamesOf(a + b, d) == NamesOf(a, d) + NamesOf(b, d)
    decreases |a|
  {
    hide RowOf, RowName;
    if a == [] {
      assert a + b == b;
    } else {
      assert (a + b)[1..] == a[1..] + b;
      NamesOfConcat(a[1..], b, d);
    }
  }

  lemma {:induction false} NewRows(names: seq<string>, n: nat, d: nat)
    requires n > d && forall m :: m in names ==> Unquoted(m) == m
    ensures NoStop(NameLines(names, n), d) && NamesOf(NameLines(names, n), d) == names
    decreases |names|
  {
    hide RowOf, RowName, Unquoted, Spaces;
    if names != [] {
      var m := |names| - 1;
      assert names == names[..m] + [names[m]];
      NewRows(names[..m], n, d);
      NewRow(n, d, names[m]);
      var last := [Spaces(n) + ("- " + names[m])];
      NamesOfConcat(NameLines(names[..m], n), last, d);
      OneRow(last[0], d);
    }
  }

  lemma OneRow(line: string, d: nat)
    requires RowOf(line, d).NameRow?
    ensures NamesOf([line], d) == [RowName(RowOf(line, d).body)]
  {
    hide RowOf, RowName;
    assert [line][1..] == [];
  }

  /** Lines without dashes add no names. */
  lemma {:induction false} NoRows(tail: seq<string>, d: nat)
    requires forall i :: 0 <= i < |tail| ==> !IsDash(tail[i])
    ensures NamesOf(tail, d) == []
    decreases |tail|
  {
    hide TrimStart, IndentOf, RowName;
    if tail != [] { NoRows(tail[1..], d); }
  }

  // -------------------------------------------------------------- the item's head

  /** The lines of a new item above its selector. */
  function Head(item: SourceItem, d: nat): seq<string> {
    [Spaces(d) + ("- " + ("source" + ":" + (" " + item.source)))] + PinLines(item.pin, d + 2) + SubDirLines(item.subDir, d + 2)
  }

  lemma ReadsAs(n: nat, key: string, v: string)
    requires n > 0 && PlainKey(key) && CleanValue(v)
    ensures FieldKv(FieldLine(n, key, " " + v)) == Some((key, v))
  {
    hide FieldKv, Unquoted, Word, IsDash, IsQuiet, TopLevelKey;
    PaddedField(n, key, " " + v);
    SpaceIsTrimmed(v);
    CleanIsUnquoted(v);
  }

  lemma FirstReads(d: nat, source: string)
    requires CleanValue(source)
    ensures FieldKv(Spaces(d) + ("- " + ("source" + ":" + (" " + source)))) == Some(("source", source))
  {
    hide FieldKv, Unquoted, Word, IsDash, IsQuiet, TopLevelKey, IndentOf, CleanValue, PlainKey;
    KeysArePlain();
    PlainIsWord("source");
    DashedField(d, "source", " " + source);
    SpaceIsTrimmed(source);
    CleanIsUnquoted(source);
  }

  /** The key a pin is written under. */
  function PinKey(pin: PinSpec): string { if pin.RefPin? then "ref" else "branch" }

  lemma HeadReads(item: SourceItem, d: nat)
    requires CleanItem(item)
    ensures var head, p := Head(item, d), if item.pin.NoPin? then 1 else 2;
      && |head| == p + (if item.subDir.Some? then 1 else 0)
      && FieldKv(head[0]) == Some(("source", item.source))
      && (!item.pin.NoPin? ==> FieldKv(head[1]) == Some((if item.pin.RefPin? then "ref" else "branch", item.pin.value)))
      && (item.subDir.Some? ==> FieldKv(head[p]) == Some(("sub-dir", item.subDir.value)))
  {
    hide FieldKv, FieldLine, PlainKey, CleanValue, CleanName, Spaces;
    KeysArePlain();
    FirstReads(d, item.source);
    if !item.pin.NoPin? { ReadsAs(d + 2, PinKey(item.pin), item.pin.value); }
    if item.subDir.Some? { ReadsAs(d + 2, "sub-dir", item.subDir.value); }
  }

  lemma SelectorReads(item: SourceItem, d: nat, key: string)
    requires PlainKey(key)
    ensures var lines := SelectorLines(item.selector, key, d + 2);
      && lines != [] && FieldKv(lines[0]) == Some((key, if item.selector.Wildcard? then "*" else ""))
      && IndentOf(lines[0]) == d + 2
  {
    hide FieldKv, Unquoted, Word, IsDash, IsQuiet, TopLevelKey, IndentOf, NameLines;
    var v := if item.selector.Wildcard? then " \"*\"" else "";
    PaddedField(d + 2, key, v);
    StarUnquoted();
    KeyIsIndented(d + 2, key, v);
  }

  lemma KeyIsIndented(n: nat, key: string, v: string)
    requires PlainKey(key)
    ensures IndentOf(FieldLine(n, key, v)) == n
  {
    hide IndentOf;
    MarksAreNoSpace();
    WordStarts(key);
    assert (key + ":" + v)[0] == key[0];
    IndentOfPadded(n, key + ":" + v);
  }

  lemma StarUnquoted()
    ensures Unquoted(" \"*\"") == "*" && Unquoted("") == ""
  {
    assert " \"*\""[1..] == "\"*\"" && "\"*\""[1..] == "*\"" && "*\""[..1] == "*";
    assert !IsSpace('"') && !IsSpace('*');
  }

  // ------------------------------------------------------------- the item read back

  /** The lines tell the item's source, its pin under its own key and no other, and its sub-directory. */
  ghost predicate TellsEntry(lines: seq<string>, item: SourceItem) {
    && SelectorAt(lines, "source") == 0 < |lines| && ValueOn(lines[0]) == item.source
    && (match item.pin
        case RefPin(r) => SelectorAt(lines, "ref") == 1 < |lines| && ValueOn(lines[1]) == r && SelectorAt(lines, "branch") > 1
        case BranchPin(b) => SelectorAt(lines, "branch") == 1 < |lines| && ValueOn(lines[1]) == b && SelectorAt(lines, "ref") > 1
        case NoPin => true)
    && (item.subDir.Some? ==>
          SelectorAt(lines, "sub-dir") < |lines| && ValueOn(lines[SelectorAt(lines, "sub-dir")]) == item.subDir.value)
  }

  /** The lines select what the item asks for: everything, or exactly these names in this order. */
  ghost predicate TellsSelector(lines: seq<string>, section: Section, selector: Selector) {
    var key := match section case Skills => "skills" case Mcps => "mcps" case Commands => "commands";
    && SelectorAt(lines, key) < |lines|
    && match selector
       case Wildcard => ValueOn(lines[SelectorAt(lines, key)]) == "*"
       case Names(names) => ValueOn(lines[SelectorAt(lines, key)]) == "" && ItemNames(lines, key) == names
  }

  lemma KeysDiffer(section: Section)
    ensures "source" != "ref" && "source" != "branch" && "ref" != "branch" && "source" != "sub-dir" && "ref" != "sub-dir" && "branch" != "sub-dir"
    ensures KeyOf(section) != "source" && KeyOf(section) != "ref" && KeyOf(section) != "branch" && KeyOf(section) != "sub-dir"
  {
    assert "source"[0] == 's' && "source"[1] == 'o' && "ref"[0] == 'r' && "branch"[0] == 'b' && "sub-dir"[0] == 's' && "sub-dir"[1] == 'u';
    assert "skills"[0] == 's' && "skills"[1] == 'k' && "mcps"[0] == 'm' && "commands"[0] == 'c';
  }

  /** `lines` starts with the head of the item. */
  ghost predicate Headed(lines: seq<string>, item: SourceItem) {
    var p := if item.pin.NoPin? then 1 else 2;
    var h := p + if item.subDir.Some? then 1 else 0;
    && h < |lines|
    && FieldKv(lines[0]) == Some(("source", item.source))
    && (!item.pin.NoPin? ==> FieldKv(lines[1]) == Some((PinKey(item.pin), item.pin.value)))
    && (item.subDir.Some? ==> FieldKv(lines[p]) == Some(("sub-dir", item.subDir.value)))
  }

  lemma HeadTells(lines: seq<string>, item: SourceItem)
    requires Headed(lines, item)
    ensures TellsEntry(lines, item)
  {
    hide FieldKv, SelectorAt;
    KeysDiffer(Skills);
    SelectorAtIs(lines, "source", 0);
    SelectorAtFinds(lines, "ref");
    SelectorAtFinds(lines, "branch");
    if item.pin.RefPin? { SelectorAtIs(lines, "ref", 1); }
    if item.pin.BranchPin? { SelectorAtIs(lines, "branch", 1); }
    if item.subDir.Some? { SelectorAtIs(lines, "sub-dir", if item.pin.NoPin? then 1 else 2); }
  }

  /** Above the selector no line gives the section's key. */
  lemma SelectorComesNext(lines: seq<string>, item: SourceItem, section: Section)
    requires Headed(lines, item)
    requires var h := |Head(item, 0)|; h < |lines| && Gives(lines[h], KeyOf(section))
    ensures SelectorAt(lines, KeyOf(section)) == |Head(item, 0)|
  {
    hide FieldKv, SelectorAt, KeyOf, Spaces, FieldLine;
    KeysDiffer(section);
    SelectorAtIs(lines, KeyOf(section), |Head(item, 0)|);
  }

  lemma HeadedBy(item: SourceItem, d: nat, more: seq<string>)
    requires CleanItem(item) && more != []
    ensures Headed(Head(item, d) + more, item) && |Head(item, d)| == |Head(item, 0)|
  {
    hide FieldKv, CleanItem, Spaces, FieldLine;
    HeadReads(item, d);
  }

  /** A new item, whatever lines without dashes have come to follow it, tells its entry and its selector. */
  lemma NewItemTells(item: SourceItem, d: nat, section: Section, tail: seq<string>)
    requires CleanItem(item) && PlainNames(item.selector) && forall i :: 0 <= i < |tail| ==> !IsDash(tail[i])
    ensures TellsEntry(Render(item, d, section) + tail, item)
    ensures TellsSelector(Render(item, d, section) + tail, section, item.selector)
  {
    hide FieldKv, FieldLine, PlainKey, CleanItem, Spaces, IsDash, IndentOf, PinLines, SubDirLines, Unquoted, NamesOf, SelectorAt, NameLines,
      KeyOf, Headed, TellsEntry, Head;
    var key, head := KeyOf(section), Head(item, d);
    var sel := SelectorLines(item.selector, key, d + 2);
    var lines := Render(item, d, section) + tail;
    Grouped(item, d, section, tail);
    KeysArePlain();
    SelectorReads(item, d, key);
    HeadedBy(item, d, sel + tail);
    HeadTells(lines, item);
    assert lines[|head|] == sel[0];
    SelectorComesNext(lines, item, section);
    SectionKey(section);
    if item.selector.Names? {
      var rows := NameLines(item.selector.names, d + 2 + 2);
      assert lines[|head| + 1..] == rows + tail;
      NewRows(item.selector.names, d + 2 + 2, d + 2);
      NamesOfConcat(rows, tail, d + 2);
      NoRows(tail, d + 2);
    }
  }

  lemma Grouped(item: SourceItem, d: nat, section: Section, tail: seq<string>)
    ensures Render(item, d, section) + tail == Head(item, d) + (SelectorLines(item.selector, KeyOf(section), d + 2) + tail)
  {
    hide PinLines, SubDirLines, SelectorLines, KeyOf, Spaces;
  }

  lemma SectionKey(section: Section)
    ensures KeyOf(section) == match section case Skills => "skills" case Mcps => "mcps" case Commands => "commands"
  {
  }

  // ----------------------------------------------------------------- the insert

  /** After an insert the section's last item is the new one, followed by lines without dashes only. */
  lemma InsertedItemIs(lines: seq<string>, section: Section, item: SourceItem) returns (d: nat, tail: seq<string>)
    requires CleanItem(item) && InsertLines(lines, section, item).Success?
    ensures var body := BodyOf(InsertLines(lines, section, item).value, KeyOf(section));
      && body.Some? && Items(body.value).items != []
      && Items(body.value).items[|Items(body.value).items| - 1] == Render(item, d, section) + tail
    ensures forall i :: 0 <= i < |tail| ==> !IsDash(tail[i])
  {
    hide TopLevelKey, FirstKey, NextTop, Render, IsBlock, KeyOf, CleanItem, InlineValue, Entries, BodyOf, InsertLines, MinDash, WithBlock,
      IndentFor, Items, IsDash;
    var key, e := KeyOf(section), EntryOf(item);
    if BodyOf(lines, key).Some? {
      InsertIntoSection(lines, section, item);
      var body := BodyOf(lines, key).value;
      d := IndentFor(body);
      if MinDash(body).Some? {
        InsertAppends(body, Render(item, d, section), e);
        tail := body[InsertAt(body)..];
        QuietIsDashless(body);
      } else {
        InsertFirst(body, Render(item, d, section), e);
        tail := body;
        NoDashAtAll(body);
      }
    } else {
      InsertFresh(lines, section, item);
      NothingThere();
      d, tail := 2, [];
      InsertFirst([], Render(item, 2, section), e);
      assert Render(item, 2, section) + [] == Render(item, 2, section);
    }
  }

  /** It tells what was asked for. */
  lemma InsertedItemTells(lines: seq<string>, section: Section, item: SourceItem) returns (last: seq<string>)
    requires CleanItem(item) && PlainNames(item.selector) && InsertLines(lines, section, item).Success?
    ensures var body := BodyOf(InsertLines(lines, section, item).value, KeyOf(section));
      && body.Some? && Items(body.value).items != []
      && last == Items(body.value).items[|Items(body.value).items| - 1]
    ensures TellsEntry(last, item) && TellsSelector(last, section, item.selector)
  {
    hide *;
    var d, tail := InsertedItemIs(lines, section, item);
    last := Render(item, d, section) + tail;
    NewItemTells(item, d, section, tail);
  }

  lemma QuietIsDashless(body: seq<string>)
    requires MinDash(body).Some?
    ensures forall i :: 0 <= i < |body[InsertAt(body)..]| ==> !IsDash(body[InsertAt(body)..][i])
  {
    hide MinDash, IsDash, IsQuiet, Items, FieldOf, Flat, WellItem, NoStart, Fields;
    var core, quiet := LastItemSplits(body);
    var at := InsertAt(body);
    forall i | at <= i < |body| ensures !IsDash(body[i]) { QuietIsHarmless(body[i]); }
  }

  lemma NoDashAtAll(body: seq<string>)
    requires MinDash(body).None?
    ensures forall i :: 0 <= i < |body| ==> !IsDash(body[i])
  {
    hide MinDash, IsDash, IndentOf;
    MinDashIs(body);
  }

  /** On texts: the file written tells, in the section's last item, exactly what was asked for. */
  lemma InsertedTextTells(text: string, section: Section, item: SourceItem) returns (last: seq<string>)
    requires CleanItem(item) && PlainNames(item.selector) && ReturnsPaired(text) && InsertText(text, section, item).Success?
    ensures var body := BodyOf(Lines(InsertText(text, section, item).value), KeyOf(section));
      && body.Some? && Items(body.value).items != []
      && last == Items(body.value).items[|Items(body.value).items| - 1]
    ensures TellsEntry(last, item) && TellsSelector(last, section, item.selector)
  {
    hide *;
    InsertTextReads(text, section, item);
    last := InsertedItemTells(Lines(text), section, item);
  }

  // ------------------------------------------------------- which entry is meant

  /** What an item's sub-directory counts as. */
  function SubDirText(subDir: Option<string>): string { if subDir.Some? then subDir.value else "" }

  /** The section lists these entries, then `a` and `b` of one source, which no other entry has. */
  ghost predicate TwoOfOneSource(lines: seq<string>, section: Section, rest: seq<Entry>, a: SourceItem, b: SourceItem) {
    && EntriesIn(lines, section) == rest + [EntryOf(a), EntryOf(b)] && a.source == b.source
    && forall e :: e in rest ==> e.source != Some(a.source)
  }

  /** Exactly the first of the two is removed. */
  ghost predicate RemovesFirst(lines: seq<string>, section: Section, rest: seq<Entry>, b: SourceItem, q: Query) {
    var r := RemoveLines(lines, section, q);
    r.Success? && r.value.Some? && EntriesIn(r.value.value, section) == rest + [EntryOf(b)]
  }

  /** Two entries of one source: without a filter `remove` will not choose, and a pin or a sub-directory that only
      the first has picks the first, one that neither has none. */
  lemma FiltersTellApart(lines: seq<string>, section: Section, rest: seq<Entry>, a: SourceItem, b: SourceItem, t: string)
    requires TwoOfOneSource(lines, section, rest, a, b)
    ensures RemoveLines(lines, section, Query(a.source, None, None)) == Failure(Ambiguous)
    ensures PinValue(a.pin) == Some(t) && PinValue(b.pin) != Some(t) ==> RemovesFirst(lines, section, rest, b, Query(a.source, Some(t), None))
    ensures PinValue(a.pin) != Some(t) && PinValue(b.pin) != Some(t) ==>
      RemoveLines(lines, section, Query(a.source, Some(t), None)) == Success(None)
    ensures SubDirText(a.subDir) == t && SubDirText(b.subDir) != t ==> RemovesFirst(lines, section, rest, b, Query(a.source, None, Some(t)))
    ensures SubDirText(a.subDir) != t && SubDirText(b.subDir) != t ==>
      RemoveLines(lines, section, Query(a.source, None, Some(t))) == Success(None)
  {
    hide RemoveLines, EntriesIn, RemovesFirst;
    var entries, n := rest + [EntryOf(a), EntryOf(b)], |rest|;
    assert entries[n] == EntryOf(a) && entries[n + 1] == EntryOf(b);
    assert forall k :: 0 <= k < n ==> entries[k] == rest[k] && entries[k] in rest;
    var all, pin, sub := Query(a.source, None, None), Query(a.source, Some(t), None), Query(a.source, None, Some(t));
    RemoveRefinesDelete(lines, section, all);
    assert Matches(entries[n], all) && Matches(entries[n + 1], all);
    OnlyAmbiguous(lines, section, all);
    RemoveRefinesDelete(lines, section, pin);
    RemoveRefinesDelete(lines, section, sub);
    if PinValue(a.pin) == Some(t) && PinValue(b.pin) != Some(t) { FirstIsPicked(lines, section, rest, a, b, pin); }
    if SubDirText(a.subDir) == t && SubDirText(b.subDir) != t { FirstIsPicked(lines, section, rest, a, b, sub); }
  }

  lemma OnlyAmbiguous(lines: seq<string>, section: Section, q: Query)
    ensures RemoveLines(lines, section, q).Failure? ==> RemoveLines(lines, section, q) == Failure(Ambiguous)
  {
    hide FirstKey, BodyOf, RestOf, Entries, Matching;
  }

  lemma FirstIsPicked(lines: seq<string>, section: Section, rest: seq<Entry>, a: SourceItem, b: SourceItem, q: Query)
    requires TwoOfOneSource(lines, section, rest, a, b) && q.source == a.source
    requires Matches(EntryOf(a), q) && !Matches(EntryOf(b), q)
    ensures RemovesFirst(lines, section, rest, b, q)
  {
    hide RemoveLines, EntriesIn;
    var entries, n := rest + [EntryOf(a), EntryOf(b)], |rest|;
    assert entries[n] == EntryOf(a) && entries[n + 1] == EntryOf(b);
    assert forall k :: 0 <= k < n ==> entries[k] == rest[k] && entries[k] in rest;
    RemoveRefinesDelete(lines, section, q);
    assert entries[..n] == rest && entries[n + 1..] == [EntryOf(b)];
    assert Without(entries, n) == rest + [EntryOf(b)];
  }

  /** An item counts as there already exactly when source, pin and sub-directory all agree. */
  lemma ExistsExactly(e: Entry, item: SourceItem)
    requires e.pin != Some("") && e.subDir != Some("") && item.subDir != Some("") && PinValue(item.pin) != Some("")
    ensures SameIdentity(e, item) <==> e == EntryOf(item)
  {
  }

  // ------------------------------------------------------- how fields are spelled

  /** A line gives a source, a pin under either key, or a sub-directory in either spelling, with its quotes taken
      off; any other key gives none of them. */
  lemma KeysRead(n: nat, key: string, v: string)
    requires n > 0 && PlainKey(key) && key[0] != '#'
    ensures FieldOf(FieldLine(n, "source", v)) == Source(Unquoted(v))
    ensures FieldOf(FieldLine(n, "ref", v)) == Pin(Unquoted(v)) && FieldOf(FieldLine(n, "branch", v)) == Pin(Unquoted(v))
    ensures FieldOf(FieldLine(n, "sub-dir", v)) == SubDir(Unquoted(v)) && FieldOf(FieldLine(n, "sub_dir", v)) == SubDir(Unquoted(v))
    ensures key != "source" && key != "ref" && key != "branch" && key != "sub-dir" && key != "sub_dir" ==>
      FieldOf(FieldLine(n, key, v)) == NoField
  {
    hide FieldKv, Unquoted, Word, IsDash, IsQuiet, TopLevelKey, PlainKey;
    KeysArePlain();
    SubDirIsWord();
    FieldsDiffer();
    LineReads(n, "source", v);
    LineReads(n, "ref", v);
    LineReads(n, "branch", v);
    LineReads(n, "sub-dir", v);
    PaddedField(n, "sub_dir", v);
    LineReads(n, key, v);
  }

  lemma LineReads(n: nat, key: string, v: string)
    requires n > 0 && PlainKey(key)
    ensures FieldKv(FieldLine(n, key, v)) == Some((key, Unquoted(v)))
  {
    hide FieldKv, Unquoted, IsDash, IsQuiet, TopLevelKey;
    PaddedField(n, key, v);
  }

  lemma SubDirIsWord()
    ensures Word("sub_dir") && "sub_dir"[0] == 's'
  {
    assert forall i :: 0 <= i < 7 ==> "sub_dir"[i] == '_' || 'a' <= "sub_dir"[i] <= 'z';
  }

  lemma FieldsDiffer()
    ensures "source" != "ref" && "source" != "branch" && "ref" != "branch" && "source" != "sub-dir" && "source" != "sub_dir"
    ensures "ref" != "sub-dir" && "ref" != "sub_dir" && "branch" != "sub-dir" && "branch" != "sub_dir" && "sub-dir" != "sub_dir"
  {
    KeysDiffer(Skills);
    assert "sub_dir"[0] == 's' && "sub_dir"[1] == 'u' && "sub_dir"[3] == '_' && "sub-dir"[3] == '-';
  }

  /** One pair of quotes, double or single, is not part of a value. */
  lemma QuotesComeOff(v: string)
    requires v != "" && CleanValue(v) && !IsSpace(v[0]) && v[0] != '"' && v[|v| - 1] != '"' && v[0] != '\'' && v[|v| - 1] != '\''
    ensures Unquoted("\"" + v + "\"") == v && Unquoted("'" + v + "'") == v
  {
    hide CleanValue, IsSpace, Strip;
    QuotesAreNoSpace();
    Bare(v, '"');
    Bare(v, '\'');
    OffBoth(v, '"');
    OffBoth(v, '\'');
    var d, q := "\"" + v + "\"", "'" + v + "'";
    assert d == ['"'] + v + ['"'] && q == ['\''] + v + ['\''];
    Unspaced(d);
    Unspaced(q);
    OtherMark(q, '"');
  }

  lemma QuotesAreNoSpace()
    ensures !IsSpace('"') && !IsSpace('\'')
  {
  }

  lemma Unspaced(s: string)
    requires s != "" && !IsSpace(s[0]) && !IsSpace(s[|s| - 1])
    ensures Trim(s) == s
  {
    hide IsSpace;
    TrimStartDone(s);
    TrimEndDone(s);
  }

  lemma Bare(v: string, c: char)
    requires v != "" && v[0] != c && v[|v| - 1] != c
    ensures Strip(v, c) == v
  {
  }

  lemma OtherMark(s: string, c: char)
    requires s != "" && s[0] != c && s[|s| - 1] != c
    ensures Strip(s, c) == s
  {
  }

  lemma OffBoth(v: string, c: char)
    requires v != "" && v[0] != c && v[|v| - 1] != c
    ensures Strip([c] + v + [c], c) == v
  {
    var s := [c] + v + [c];
    assert s[1..] == v + [c];
    assert (v + [c])[0] == v[0] && (v + [c])[..|v|] == v;
    assert StripStart(v + [c], c) == v + [c];
    assert StripEnd(v + [c], c) == StripEnd(v, c);
  }

  // -------------------------------------------------- names taken out again

  ghost predicate NoColons(names: seq<string>) { forall n :: n in names ==> ':' !in n }

  lemma {:induction false} NoObjects(names: seq<string>, n: nat, d: nat, tail: seq<string>)
    requires n > d && NoColons(names) && (forall m :: m in names ==> Unquoted(m) == m) && forall i :: 0 <= i < |tail| ==> !IsDash(tail[i])
    ensures !HasObject(NameLines(names, n) + tail, d)
    decreases |names|
  {
    hide RowName, Unquoted, Spaces, RowOf;
    if names == [] {
      assert [] + tail == tail;
      NoObjectRows(tail, d);
    } else {
      var m := |names| - 1;
      var last := Spaces(n) + ("- " + names[m]);
      assert names == names[..m] + [names[m]];
      NewRows(names[..m], n, d);
      ObjectSplits(NameLines(names[..m], n), [last] + tail, d);
      assert NameLines(names, n) + tail == NameLines(names[..m], n) + ([last] + tail);
      NoObjects(names[..m], n, d, []);
      assert NameLines(names[..m], n) + [] == NameLines(names[..m], n);
      NewRow(n, d, names[m]);
      RowBody(n, d, names[m]);
      assert ([last] + tail)[1..] == tail;
      NoObjectRows(tail, d);
    }
  }

  lemma RowBody(n: nat, d: nat, name: string)
    requires n > d && ':' !in name
    ensures var row := RowOf(Spaces(n) + ("- " + name), d); row.NameRow? ==> ':' !in row.body
  {
    hide IsSpace, IndentOf, FieldKv, TopLevelKey, Strip, IsDash, IsQuiet;
    TrimStartPadded(n, "- " + name);
    MarksAreNoSpace();
    TrimStartDone("- " + name);
    assert ("- " + name)[2..] == name;
    TrimKeepsOut(name);
  }

  lemma TrimKeepsOut(s: string)
    requires ':' !in s
    ensures ':' !in Trim(s)
  {
    hide IsSpace;
    TrimStartKeepsOut(s);
    TrimEndIsPrefix(TrimStart(s));
  }

  lemma {:induction false} TrimStartKeepsOut(s: string)
    requires ':' !in s
    ensures ':' !in TrimStart(s)
  {
    hide IsSpace;
    if s != "" && IsSpace(s[0]) {
      assert forall c :: c in s[1..] ==> c in s;
      TrimStartKeepsOut(s[1..]);
    }
  }

  lemma {:induction false} ObjectSplits(a: seq<string>, b: seq<string>, d: nat)
    requires NoStop(a, d)
    ensures HasObject(a + b, d) <==> HasObject(a, d) || HasObject(b, d)
    decreases |a|
  {
    hide RowOf;
    if a == [] {
      assert a + b == b;
    } else {
      assert (a + b)[1..] == a[1..] + b;
      ObjectSplits(a[1..], b, d);
    }
  }

  lemma {:induction false} NoObjectRows(tail: seq<string>, d: nat)
    requires forall i :: 0 <= i < |tail| ==> !IsDash(tail[i])
    ensures !HasObject(tail, d)
    decreases |tail|
  {
    hide TrimStart, IndentOf;
    if tail != [] { NoObjectRows(tail[1..], d); }
  }

  /** What becomes of a new item's lines when names are taken out of it. */
  lemma NewNamesLeave(item: SourceItem, d: nat, section: Section, tail: seq<string>, names: seq<string>)
    requires CleanItem(item) && PlainNames(item.selector) && forall i :: 0 <= i < |tail| ==> !IsDash(tail[i])
    requires item.selector.Names? ==> NoColons(item.selector.names)
    ensures var r := EditItem(Render(item, d, section) + tail, KeyOf(section), names);
      match item.selector
      case Wildcard => r == Failure(WildcardEntry)
      case Names(have) =>
        && (r == Failure(MissingName) <==> exists n :: n in names && n !in have)
        && (r == Success(None) <==> (forall n :: n in names ==> n in have) && (forall n :: n in have ==> n in names))
        && (r.Success? && r.value.Some? ==> ItemNames(r.value.value, KeyOf(section)) == Keep(have, names))
        && (r.Failure? ==> r == Failure(MissingName))
  {
    hide KeyOf, CleanItem, IsDash, IndentOf, FieldKv, Keep, NamesOf, HasObject, Drop, Gives, SelectorLines, SelectorAt;
    var lines, key := Render(item, d, section) + tail, KeyOf(section);
    NewItemTells(item, d, section, tail);
    SectionKey(section);
    StarIsText();
    if item.selector.Names? {
      var have := item.selector.names;
      var f := SelectorAt(lines, key);
      NewItemHasNoObjects(item, d, section, tail);
      NothingKept(have, names);
      if r :| r in names && r !in have {
        var i :| 0 <= i < |names| && names[i] == r;
        assert names[i] !in NamesOf(lines[f + 1..], IndentOf(lines[f]));
      }
      var r := EditItem(lines, key, names);
      if r.Success? && r.value.Some? { EditedNames(lines, key, names); }
    }
  }

  lemma StarIsText()
    ensures "*" != ""
  {
  }

  lemma EditedNames(item: seq<string>, key: string, names: seq<string>)
    requires EditItem(item, key, names).Success? && EditItem(item, key, names).value.Some?
    ensures ItemNames(EditItem(item, key, names).value.value, key) == Keep(ItemNames(item, key), names)
  {
    hide Gives, ValueOn, IndentOf, HasObject, Drop, NamesOf, Keep, SelectorAt;
    var f := SelectorAt(item, key);
    var ind, rows := IndentOf(item[f]), item[f + 1..];
    var after := EditItem(item, key, names).value.value;
    DropKeepsTheRest(rows, ind, names);
    SelectorAtFinds(item, key);
    assert forall i :: 0 <= i <= f ==> after[i] == item[i];
    SelectorAtIs(after, key, f);
    assert after[f + 1..] == Drop(rows, ind, names);
  }

  lemma NewItemHasNoObjects(item: SourceItem, d: nat, section: Section, tail: seq<string>)
    requires CleanItem(item) && PlainNames(item.selector) && forall i :: 0 <= i < |tail| ==> !IsDash(tail[i])
    requires item.selector.Names? && NoColons(item.selector.names)
    ensures var lines := Render(item, d, section) + tail; var f := SelectorAt(lines, KeyOf(section));
      f < |lines| && !HasObject(lines[f + 1..], IndentOf(lines[f]))
  {
    hide FieldKv, FieldLine, PlainKey, CleanItem, Spaces, IsDash, IndentOf, PinLines, SubDirLines, Unquoted, SelectorAt, NameLines,
      KeyOf, Headed, Head, HasObject;
    var key, head := KeyOf(section), Head(item, d);
    var sel := SelectorLines(item.selector, key, d + 2);
    var lines := Render(item, d, section) + tail;
    Grouped(item, d, section, tail);
    KeysArePlain();
    SelectorReads(item, d, key);
    HeadedBy(item, d, sel + tail);
    assert lines[|head|] == sel[0];
    SelectorComesNext(lines, item, section);
    assert lines[|head| + 1..] == NameLines(item.selector.names, d + 2 + 2) + tail;
    NoObjects(item.selector.names, d + 2 + 2, d + 2, tail);
  }

  /** A new item loses exactly the names it is asked to lose: a wildcard none, an unknown name stops it all, and
      with the last of its names the item goes. */
  lemma InsertedNamesLeave(lines: seq<string>, section: Section, item: SourceItem, q: Query, names: seq<string>)
    requires CleanItem(item) && PlainNames(item.selector) && (item.selector.Names? ==> NoColons(item.selector.names))
    requires InsertLines(lines, section, item).Success? && NoStrayFields(lines, section, EntryOf(item))
    requires Matches(EntryOf(item), q) && forall k :: 0 <= k < |EntriesIn(lines, section)| ==> !Matches(EntriesIn(lines, section)[k], q)
    ensures var r := RemoveNamesLines(InsertLines(lines, section, item).value, section, q, names);
      match item.selector
      case Wildcard => r == Failure(WildcardEntry)
      case Names(have) =>
        if exists n :: n in names && n !in have then r == Failure(MissingName)
        else r.Success? && if forall n :: n in have ==> n in names then r.value.WholeItemGone? else r.value.SomeGone?
  {
    hide KeyOf, CleanItem, IsDash, Render, InsertLines, Items, Entries, BodyOf, RestOf, FirstKey, NoStrayFields, EditItem, Matches, Matching,
      WithItem, WithoutItem, PlainNames;
    var after, before := InsertLines(lines, section, item).value, EntriesIn(lines, section);
    var d, tail := InsertedItemIs(lines, section, item);
    InsertRefinesAppend(lines, section, item);
    var body := BodyOf(after, KeyOf(section)).value;
    EntriesCount(body);
    assert Entries(body) == before + [EntryOf(item)];
    OnlyLastMatches(before, EntryOf(item), q);
    NewNamesLeave(item, d, section, tail, names);
  }

  lemma OnlyLastMatches(before: seq<Entry>, e: Entry, q: Query)
    requires Matches(e, q) && forall k :: 0 <= k < |before| ==> !Matches(before[k], q)
    ensures Matching(before + [e], q) == [|before|]
  {
    hide Matches;
    MatchingCounts(before, q);
    assert (before + [e])[..|before|] == before;
  }
}
