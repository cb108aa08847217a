/** What is left of the promise that an edit keeps all other bytes: exactly when removing an entry takes only the
    entry's own lines, and inputs for which it takes a comment about the next entry or a key of the file. */
module ConfigBytes {
  import opened Collections
  import opened YamlLines
  import opened SectionItems
  import opened ConfigEdit

  /** A line that belongs under a dash at indentation `d`: deeper, or blank, or a comment. */
  predicate Nested(line: string, d: nat) { IsQuiet(line) || IndentOf(line) > d }

  /** How many lines from the first on are nested. */
  function RunLength(lines: seq<string>, d: nat): (n: nat)
    ensures n <= |lines|
  {
    if lines == [] || !Nested(lines[0], d) then 0 else 1 + RunLength(lines[1..], d)
  }

  /** The entry that starts at a dash, by YAML's nesting alone: the dash line and what is nested below it, up to
      the last line that is neither blank nor a comment. */
  function OwnCount(lines: seq<string>): (n: nat)
    requires lines != []
    ensures n <= |lines|
  {
    TrimBack(lines, 1 + RunLength(lines[1..], IndentOf(lines[0])))
  }

  lemma {:induction false} RunStops(a: seq<string>, b: seq<string>, d: nat)
    requires b == [] || !Nested(b[0], d)
    ensures RunLength(a + b, d) <= |a|
    ensures RunLength(a + b, d) == |a| <==> forall i :: 0 <= i < |a| ==> Nested(a[i], d)
  {
    hide Nested;
    if a == [] {
      assert a + b == b;
    } else {
      assert (a + b)[1..] == a[1..] + b && (a + b)[0] == a[0];
      RunStops(a[1..], b, d);
      if Nested(a[0], d) && RunLength(a + b, d) == |a| {
        forall i | 0 <= i < |a| ensures Nested(a[i], d) { if i > 0 { assert a[i] == a[1..][i - 1]; } }
      }
    }
  }

  /** Every line of a removed range is the entry's own. */
  ghost predicate AllOwn(item: seq<string>)
    requires item != []
  {
    !IsQuiet(item[|item| - 1]) && forall i :: 1 <= i < |item| ==> Nested(item[i], IndentOf(item[0]))
  }

  lemma OwnWithin(item: seq<string>, back: seq<string>)
    requires item != [] && !IsQuiet(item[0]) && (back == [] || !Nested(back[0], IndentOf(item[0])))
    ensures 1 <= OwnCount(item + back) <= |item|
    ensures OwnCount(item + back) == |item| <==> AllOwn(item)
  {
    hide IsQuiet, IndentOf, RunLength, Nested;
    var all, d := item + back, IndentOf(item[0]);
    assert all[0] == item[0] && all[1..] == item[1..] + back;
    RunStops(item[1..], back, d);
    var n := 1 + RunLength(all[1..], d);
    assert all[n - 1] == item[n - 1];
    assert forall i :: 0 <= i < |item| - 1 ==> item[1..][i] == item[i + 1];
    if AllOwn(item) {
      assert forall i :: 0 <= i < |item| - 1 ==> Nested(item[1..][i], d);
    }
    if n == |item| {
      forall i | 1 <= i < |item| ensures Nested(item[i], d) { assert item[1..][i - 1] == item[i]; }
    }
  }

  lemma TopKeyEnds(line: string, d: nat)
    requires TopLevelKey(line).Some?
    ensures !Nested(line, d)
  {
    hide IsSpace;
    var t := TrimEnd(line);
    TrimEndIsPrefix(line);
    var colon := Find(t, ':');
    assert t[..colon][0] == t[0] == line[0];
    assert !IsSpace(line[0]);
    TrimStartDone(line);
  }

  lemma StartEnds(line: string, d: nat)
    requires IsStart(line, d)
    ensures !Nested(line, d) && !IsQuiet(line)
  {
    hide IsDash, IsQuiet, IndentOf;
    StartIsNotQuiet(line, d);
  }

  lemma OnlyIfAll<T>(front: seq<T>, item: seq<T>, back: seq<T>, n: nat)
    requires n <= |item|
    ensures front + back == front + (item + back)[n..] <==> n == |item|
  {
    if n == |item| { assert (item + back)[n..] == back; }
    if front + back == front + (item + back)[n..] { assert |front + back| == |front + (item + back)[n..]|; }
  }

  lemma Reassociate<T>(head: seq<T>, x: T, pre: seq<T>, l: seq<T>, item: seq<T>, r: seq<T>, rest: seq<T>)
    ensures head + [x] + (pre + (l + item + r)) + rest == (head + [x] + pre + l) + item + (r + rest)
    ensures head + [x] + (pre + (l + r)) + rest == (head + [x] + pre + l) + (r + rest)
  {
  }

  /** What follows an item in the file starts a new entry or a new section, or is nothing. */
  lemma BackEnds(items: seq<seq<string>>, k: nat, d: nat, pre: seq<string>, rest: seq<string>)
    requires k < |items| && WellChunked(Chunks(pre, items), d) && FromTopKey(rest)
    ensures var back := Flat(items[k + 1..]) + rest; back == [] || !Nested(back[0], d)
  {
    hide TopLevelKey, IsStart, Nested, NoStart;
    if k + 1 < |items| {
      var next := items[k + 1..];
      assert next == [items[k + 1]] + items[k + 2..];
      FlatConcat([items[k + 1]], items[k + 2..]);
      FlatEmpty();
      FlatLast([], items[k + 1]);
      assert [] + [items[k + 1]] == [items[k + 1]];
      WellItemStarts(items[k + 1], d);
      StartEnds(items[k + 1][0], d);
      assert (Flat(next) + rest)[0] == items[k + 1][0];
    } else {
      assert items[k + 1..] == [];
      FlatEmpty();
      if rest != [] { TopKeyEnds(rest[0], d); }
      assert Flat(items[k + 1..]) + rest == rest;
    }
  }

  /** A removal cuts out one whole range of lines that starts with the entry's dash, and nothing else. Everything
      but the entry's own lines survives, if and only if every line of the range is one of them. */
  lemma RemoveKeepsOthersExactly(lines: seq<string>, section: Section, q: Query)
    returns (front: seq<string>, item: seq<string>, back: seq<string>)
    requires RemoveLines(lines, section, q).Success? && RemoveLines(lines, section, q).value.Some?
    ensures BodyOf(lines, KeyOf(section)).Some? && |Matching(EntriesIn(lines, section), q)| == 1
    ensures var items := Items(BodyOf(lines, KeyOf(section)).value).items; var k := Matching(EntriesIn(lines, section), q)[0];
      k < |items| && item == items[k] && item != []
    ensures lines == front + item + back && RemoveLines(lines, section, q) == Success(Some(front + back))
    ensures IsDash(item[0]) && OwnCount(item + back) <= |item|
    ensures front + back == front + (item + back)[OwnCount(item + back)..] <==> AllOwn(item)
  {
    hide TopLevelKey, FirstKey, NextTop, KeyOf, Matching, BodyOf, RestOf, Items, Flat, MinDash, IsQuiet, OwnCount, IsDash,
      IndentOf, AllOwn, Nested;
    RemoveOne(lines, section, q);
    var key, body := KeyOf(section), BodyOf(lines, KeyOf(section)).value;
    var i, k, rest := FirstKey(lines, key), Matching(Entries(body), q)[0], RestOf(lines, key);
    SectionSplits(lines, key);
    ItemsAre(body);
    var c, d := Items(body), MinDash(body).value;
    FlatWithout(c.items, k);
    item := c.items[k];
    front, back := lines[..i] + [lines[i]] + c.pre + Flat(c.items[..k]), Flat(c.items[k + 1..]) + rest;
    Reassociate(lines[..i], lines[i], c.pre, Flat(c.items[..k]), item, Flat(c.items[k + 1..]), rest);
    WellItemStarts(item, d);
    StartEnds(item[0], d);
    BackEnds(c.items, k, d, c.pre, rest);
    OwnWithin(item, back);
    OnlyIfAll(front, item, back, OwnCount(item + back));
  }

  // ---------------------------------------------------------------- instances

  const REMARK := "# about the next one"

  lemma RemarkIsQuiet()
    ensures IsQuiet(REMARK) && TopLevelKey(REMARK) == None
  {
    assert REMARK[0] == '#' && !IsSpace('#');
    assert TrimStart(REMARK) == REMARK;
  }

  /** Two entries with a remark about the second between them. */
  function TwoEntries(section: Section, a: SourceItem, b: SourceItem): seq<string> {
    Render(a, 2, section) + [REMARK] + Render(b, 2, section)
  }

  lemma TwoEntriesAre(section: Section, a: SourceItem, b: SourceItem)
    requires CleanItem(a) && CleanItem(b)
    ensures NoTopKeys(TwoEntries(section, a, b))
    ensures Items(TwoEntries(section, a, b)) == Chunks([], [Render(a, 2, section) + [REMARK], Render(b, 2, section)])
    ensures Entries(TwoEntries(section, a, b)) == [EntryOf(a), EntryOf(b)]
  {
    hide TopLevelKey, Render, Fields, IsQuiet, WellItem, NoStart, NoShallower, MinDash, Items, EntryOf, Flat, CleanItem;
    var x, y, remark := Render(a, 2, section), Render(b, 2, section), [REMARK];
    RenderReadsBack(a, 2, section);
    RenderReadsBack(b, 2, section);
    RemarkIsQuiet();
    QuietTail(remark, 2);
    WellItemAppend(x, remark, 2);
    AppendFields(x, remark);
    NoShallowerConcat(x, remark, 2);
    NoShallowerConcat(x + remark, y, 2);
    NoTopKeysConcat(x, remark);
    NoTopKeysConcat(x + remark, y);
    var c := Chunks([], [x + remark, y]);
    FlatEmpty();
    FlatLast([], x + remark);
    FlatLast([x + remark], y);
    assert [] + [x + remark] == [x + remark] && [x + remark] + [y] == c.items;
    assert c.pre + Flat(c.items) == x + remark + y;
    NoStartEmpty(2);
    ItemsFrom(c, 2);
  }

  lemma OnlyFirstMatches(x: Entry, y: Entry, q: Query)
    requires Matches(x, q) && !Matches(y, q)
    ensures Matching([x, y], q) == [0]
  {
    hide Matches, Matching;
    MatchingIs([x, y], q, 0);
    MatchingIs([x, y], q, 1);
    MatchingCounts([x, y], q);
  }

  lemma SecondStays(body: seq<string>, x: seq<string>, y: seq<string>)
    requires Items(body) == Chunks([], [x, y])
    ensures WithoutItem(body, 0) == y
  {
    hide Items, Flat;
    FlatEmpty();
    FlatLast([], y);
    assert [] + [y] == [y];
    assert Without([x, y], 0) == [y];
  }

  /** The remark about the second entry goes when the first one is removed. */
  lemma RemoveTakesRemark(section: Section, a: SourceItem, b: SourceItem, q: Query)
    requires CleanItem(a) && CleanItem(b) && Matches(EntryOf(a), q) && !Matches(EntryOf(b), q)
    ensures var header := [KeyOf(section) + ":"];
      RemoveLines(header + TwoEntries(section, a, b), section, q) == Success(Some(header + Render(b, 2, section)))
  {
    hide TopLevelKey, FirstKey, NextTop, KeyOf, BodyOf, RestOf, Items, MinDash, Render, Matches, Matching, EntryOf, PlainKey,
      CleanItem, WithoutItem, TwoEntries, Entries;
    var key, body := KeyOf(section), TwoEntries(section, a, b);
    var lines, y := [key + ":"] + body, Render(b, 2, section);
    TwoEntriesAre(section, a, b);
    KeysArePlain();
    HeaderReads(key);
    BodyIs([], key + ":", body, [], key);
    assert [] + [key + ":"] + body + [] == lines;
    OnlyFirstMatches(EntryOf(a), EntryOf(b), q);
    SecondStays(body, Render(a, 2, section) + [REMARK], y);
    assert lines[..0] + [lines[0]] + y + [] == [key + ":"] + y;
  }

  /** A key of the file itself, written with a space before its colon. */
  const FOREIGN := "destination : ./x"

  lemma ForeignIsNoKey()
    ensures TopLevelKey(FOREIGN) == None && !IsDash(FOREIGN) && !IsQuiet(FOREIGN) && IndentOf(FOREIGN) == 0
    ensures FieldOf(FOREIGN) == NoField && TrimStart(FOREIGN) == FOREIGN
  {
    hide Unquoted, TrimStart, TrimEnd, Find;
    var t := FOREIGN;
    assert t[0] == 'd' && t[|t| - 1] == 'x' && !IsSpace('d') && !IsSpace('x');
    TrimStartDone(t);
    TrimEndDone(t);
    assert |t| == 17 && t[12] == ':' && t[11] == ' ';
    ForeignColon();
    assert t[..12][11] == ' ' && IsSpace(' ');
    assert HasSpace(t[..12]);
    ForeignWord();
  }

  lemma ForeignColon()
    ensures Find(FOREIGN, ':') == 12
  {
    var t := FOREIGN;
    assert t[0] == 'd' && t[1] == 'e' && t[2] == 's' && t[3] == 't' && t[4] == 'i' && t[5] == 'n' && t[6] == 'a';
    assert t[7] == 't' && t[8] == 'i' && t[9] == 'o' && t[10] == 'n' && t[11] == ' ' && t[12] == ':';
    FindIs(t, ':', 12);
  }

  lemma ForeignWord()
    ensures Trim(FOREIGN[..12]) == "destination"
  {
    var w := FOREIGN[..12];
    assert w == "destination" + " ";
    assert w[0] == 'd' && !IsSpace('d') && IsSpace(' ');
    TrimStartDone(w);
    assert w[..|w| - 1] == "destination" && w[11] == ' ';
    assert "destination"[10] == 'n' && !IsSpace('n');
    TrimEndDone("destination");
  }

  /** A section with one entry, and below it a key of the file that the editor does not recognise. */
  function OneEntry(section: Section, a: SourceItem): seq<string> {
    Render(a, 2, section) + [FOREIGN]
  }

  lemma OneEntryIs(section: Section, a: SourceItem)
    requires CleanItem(a)
    ensures NoTopKeys(OneEntry(section, a))
    ensures Items(OneEntry(section, a)) == Chunks([], [OneEntry(section, a)])
    ensures Entries(OneEntry(section, a)) == [EntryOf(a)]
  {
    hide TopLevelKey, Render, Fields, IsQuiet, WellItem, NoStart, NoShallower, MinDash, Items, EntryOf, Flat, CleanItem, FieldOf,
      IsDash, IndentOf;
    var x, foreign := Render(a, 2, section), [FOREIGN];
    RenderReadsBack(a, 2, section);
    ForeignIsNoKey();
    PlainBelow(FOREIGN);
    WellItemAppend(x, foreign, 2);
    NoFields(foreign);
    AppendFields(x, foreign);
    NoShallowerConcat(x, foreign, 2);
    NoTopKeysConcat(x, foreign);
    var c := Chunks([], [x + foreign]);
    FlatEmpty();
    FlatLast([], x + foreign);
    assert [] + [x + foreign] == [x + foreign];
    assert c.pre + Flat(c.items) == x + foreign;
    NoStartEmpty(2);
    ItemsFrom(c, 2);
  }

  lemma PlainBelow(l: string)
    requires !IsDash(l) && TopLevelKey(l) == None
    ensures NoStart([l], 2) && NoShallower([l], 2) && NoTopKeys([l])
  {
    hide IsDash, IndentOf, TopLevelKey;
  }

  lemma OnlyOneMatches(x: Entry, q: Query)
    requires Matches(x, q)
    ensures Matching([x], q) == [0]
  {
    hide Matches, Matching;
    MatchingIs([x], q, 0);
    MatchingCounts([x], q);
  }

  lemma RemoveOnlyItem(section: Section, body: seq<string>, e: Entry, q: Query)
    requires NoTopKeys(body) && Items(body) == Chunks([], [body]) && Entries(body) == [e] && Matches(e, q)
    ensures RemoveLines([KeyOf(section) + ":"] + body, section, q) == Success(Some([KeyOf(section) + ":"]))
  {
    hide TopLevelKey, FirstKey, NextTop, KeyOf, BodyOf, RestOf, Items, MinDash, Matches, Matching, PlainKey, WithoutItem, Entries;
    var key := KeyOf(section);
    var lines := [key + ":"] + body;
    KeysArePlain();
    HeaderReads(key);
    BodyIs([], key + ":", body, [], key);
    assert [] + [key + ":"] + body + [] == lines;
    OnlyOneMatches(e, q);
    NothingStays(body);
    assert lines[..0] + [lines[0]] + [] + [] == [key + ":"];
  }

  /** The file's own key goes when the entry above it is removed, although the entry ends in no quiet line. */
  lemma RemoveTakesForeignKey(section: Section, a: SourceItem, q: Query)
    requires CleanItem(a) && Matches(EntryOf(a), q)
    ensures !IsQuiet(FOREIGN)
    ensures RemoveLines([KeyOf(section) + ":"] + OneEntry(section, a), section, q) == Success(Some([KeyOf(section) + ":"]))
  {
    hide *;
    ForeignIsNoKey();
    OneEntryIs(section, a);
    RemoveOnlyItem(section, OneEntry(section, a), EntryOf(a), q);
  }

  lemma NothingStays(body: seq<string>)
    requires Items(body) == Chunks([], [body])
    ensures WithoutItem(body, 0) == []
  {
    hide Items, Flat;
    FlatEmpty();
    assert Without([body], 0) == [];
  }
}
