/** The config editor on whole texts, as the line loops of the program run it on the lines of a file. */
module ConfigFile {
  import opened Collections
  import opened YamlLines
  import opened SectionItems
  import opened TextLines
  import opened ConfigEdit

  // ------------------------------------------------------------ the two commands

  function InsertText(text: string, section: Section, item: SourceItem): Result<string, EditError> {
    match InsertLines(Lines(text), section, item)
    case Failure(e) => Failure(e)
    case Success(lines) => Success(Join(lines, text))
  }

  function RemoveText(text: string, section: Section, q: Query): Result<(string, bool), EditError> {
    match RemoveLines(Lines(text), section, q)
    case Failure(e) => Failure(e)
    case Success(None) => Success((text, false))
    case Success(Some(lines)) => Success((Join(lines, text), true))
  }

  lemma InsertedLines(lines: seq<string>, section: Section, item: SourceItem)
    requires CleanItem(item) && InsertLines(lines, section, item).Success? && CleanLines(lines)
    ensures var after := InsertLines(lines, section, item).value;
      && CleanLines(after) && after != []
      && (lines == [] || lines[|lines| - 1] != [] ==> after[|after| - 1] != [])
  {
    hide CleanItem, InsertLines, Render, CleanLine, KeyOf, TopLevelKey, FirstKey, BodyOf, IndentFor, Gap, CleanLines;
    var before, added, behind := InsertKeepsLines(lines, section, item);
    var i, header := FirstKey(lines, KeyOf(section)), KeyOf(section) + ":";
    HeaderIsClean(section);
    CleanConcat(before, added);
    CleanConcat(before + added, behind);
    if i < |lines| {
      var indent := IndentFor(BodyOf(lines, KeyOf(section)).value);
      RenderIsClean(item, indent, section);
      ReplaceIsClean(lines, i, header);
      CleanConcat(before, behind);
      LastOf(before, added, behind);
    } else {
      RenderIsClean(item, 2, section);
      GapIsClean(lines);
      CleanConcat(Gap(lines) + [header], Render(item, 2, section));
      CleanConcat(Gap(lines), [header]);
      OneIsClean(header);
      assert behind == [] && added != [];
    }
  }

  lemma LastOf(before: seq<string>, added: seq<string>, behind: seq<string>)
    requires before != [] && added != []
    ensures var all, old_ := before + added + behind, before + behind;
      all[|all| - 1] == if behind == [] then added[|added| - 1] else old_[|old_| - 1]
  {
  }

  lemma ReplaceIsClean(lines: seq<string>, i: nat, header: string)
    requires CleanLines(lines) && i < |lines| && CleanLine(header)
    ensures CleanLines(lines[i := header])
  {
    hide CleanLine;
  }

  lemma RenderIsClean(item: SourceItem, indent: nat, section: Section)
    requires CleanItem(item)
    ensures var block := Render(item, indent, section);
      CleanLines(block) && block != [] && block[|block| - 1] != []
  {
    hide Render, CleanItem, CleanLine, TopLevelKey;
    RenderReadsBack(item, indent, section);
    RenderIsSome(item, indent, section);
  }

  lemma RenderIsSome(item: SourceItem, indent: nat, section: Section)
    ensures Render(item, indent, section) != []
  {
  }

  lemma HeaderIsClean(section: Section)
    ensures CleanLine(KeyOf(section) + ":") && KeyOf(section) + ":" != []
  {
  }

  lemma GapIsClean(lines: seq<string>)
    ensures CleanLines(Gap(lines))
  {
    hide Trim;
  }

  /** The edited text, read back as lines, is the edited lines. */
  lemma InsertTextReads(text: string, section: Section, item: SourceItem)
    requires CleanItem(item) && ReturnsPaired(text) && InsertText(text, section, item).Success?
    ensures InsertLines(Lines(text), section, item).Success?
    ensures Lines(InsertText(text, section, item).value) == InsertLines(Lines(text), section, item).value
    ensures var t := InsertText(text, section, item).value;
      t != [] && (EndsLine(t) <==> text == [] || EndsLine(text)) && CleanLines(Lines(t))
  {
    hide CleanItem, InsertLines, CleanLine, Lines, CleanLines, ReturnsPaired;
    LinesCleanExactly(text);
    if text != [] { LastLineIsThere(text); }
    EmptyHasNoLines();
    InsertedLines(Lines(text), section, item);
    var after := InsertLines(Lines(text), section, item).value;
    var ended := text == [] || EndsLine(text);
    JoinedReads(after, ended);
    if !ended {
      JoinedEnds(after);
    }
  }

  /** On texts: a successful insert appends exactly the new entry to its section's list, if and only if it
      picks up no stray field, and leaves every other section's list as it was. */
  lemma InsertTextRefinesAppend(text: string, section: Section, item: SourceItem)
    requires CleanItem(item) && ReturnsPaired(text) && InsertText(text, section, item).Success?
    ensures var t := InsertText(text, section, item).value;
      && (EntriesIn(Lines(t), section) == EntriesIn(Lines(text), section) + [EntryOf(item)]
          <==> NoStrayFields(Lines(text), section, EntryOf(item)))
      && forall other :: other != section ==> EntriesIn(Lines(t), other) == EntriesIn(Lines(text), other)
  {
    hide *;
    InsertTextReads(text, section, item);
    InsertRefinesAppend(Lines(text), section, item);
  }

  lemma RemovedLines(lines: seq<string>, section: Section, q: Query)
    requires CleanLines(lines) && RemoveLines(lines, section, q).Success? && RemoveLines(lines, section, q).value.Some?
    ensures var after := RemoveLines(lines, section, q).value.value; after != [] && CleanLines(after)
  {
    hide TopLevelKey, FirstKey, BodyOf, RestOf, CleanLine, KeyOf, RemoveLines, Items, Flat, Matching, CleanLines;
    RemoveOne(lines, section, q);
    var key, body := KeyOf(section), BodyOf(lines, KeyOf(section)).value;
    SectionSplits(lines, key);
    var i, k, rest := FirstKey(lines, key), Matching(Entries(body), q)[0], RestOf(lines, key);
    ItemsAre(body);
    var c := Items(body);
    FlatWithout(c.items, k);
    var a, b, x, y := c.pre, Flat(c.items[..k]), c.items[k], Flat(c.items[k + 1..]);
    CleanConcat(lines[..i] + [lines[i]] + body, rest);
    CleanConcat(lines[..i] + [lines[i]], body);
    CleanConcat(a, b + x + y);
    CleanConcat(b + x, y);
    CleanConcat(b, x);
    CleanConcat(b, y);
    CleanConcat(a, b + y);
    CleanConcat(lines[..i] + [lines[i]], WithoutItem(body, k));
    CleanConcat(lines[..i] + [lines[i]] + WithoutItem(body, k), rest);
  }

  /** Removed lines make up `text` again exactly when they are its lines and it has no CRLF line ends. */
  lemma RemovedIsText(text: string, t: string, lines: seq<string>)
    requires t != [] && (EndsLine(t) <==> text == [] || EndsLine(text))
    requires lines != [] && CleanLines(lines)
    ensures Join(lines, t) == text <==> text != [] && lines == Lines(text) && NoCrLf(text)
  {
    hide CleanLine, Lines, CleanLines, Joined, NoCrLf;
    EmptyHasNoLines();
    if text != [] {
      LinesJoinExactly(text);
      LastLineIsThere(text);
    }
    if EndsLine(t) || lines[|lines| - 1] != [] {
      JoinedReads(lines, EndsLine(t));
    } else {
      JoinedBlank(lines);
    }
  }

  /** On texts: `remove` right after `insert` gives the very text back, if and only if the section was there
      with a bare header and was empty or ended in an item's own lines, and the text has no CRLF line ends. */
  lemma RemoveTextUndoesInsert(text: string, section: Section, item: SourceItem, q: Query)
    requires CleanItem(item) && ReturnsPaired(text) && InsertText(text, section, item).Success?
    requires Matches(EntryOf(item), q)
    requires forall k :: 0 <= k < |EntriesIn(Lines(text), section)| ==> !Matches(EntriesIn(Lines(text), section)[k], q)
    ensures RemoveText(InsertText(text, section, item).value, section, q) == Success((text, true))
       <==> Undoable(Lines(text), section) && NoCrLf(text)
  {
    hide CleanItem, InsertLines, RemoveLines, CleanLine, Lines, CleanLines, Undoable, Matches, EntriesIn, InsertText, EndsLine, Join,
      ReturnsPaired, NoCrLf;
    InsertTextReads(text, section, item);
    RemoveUndoesInsert(Lines(text), section, item, q);
    var t := InsertText(text, section, item).value;
    var r := RemoveLines(Lines(t), section, q);
    if r.Success? && r.value.Some? {
      RemovedLines(Lines(t), section, q);
      RemovedIsText(text, t, r.value.value);
      UndoableIsNotEmpty(text, section);
    }
  }

  lemma UndoableIsNotEmpty(text: string, section: Section)
    ensures Undoable(Lines(text), section) ==> text != []
  {
    hide KeyOf, MinDash, IsQuiet, TopLevelKey;
    EmptyHasNoLines();
  }

  // -------------------------------------------------------------- the line loops

  datatype ParsedItem = ParsedItem(start: nat, end: nat, indent: nat, entry: Entry)

  /** Where item `k` starts. */
  function Offset(c: Chunks, k: nat): nat
    requires k <= |c.items|
  {
    |c.pre| + |Flat(c.items[..k])|
  }

  function StartsIn(body: seq<string>, d: nat): (r: seq<nat>)
    ensures forall i :: 0 <= i < |r| ==> r[i] < |body|
  {
    if body == [] then []
    else StartsIn(body[..|body| - 1], d) + (if IsStart(body[|body| - 1], d) then [|body| - 1] else [])
  }

  lemma {:induction false} StartsAreOffsets(body: seq<string>, d: nat)
    ensures |StartsIn(body, d)| == |Chunked(body, d).items|
    ensures forall k :: 0 <= k < |StartsIn(body, d)| ==> StartsIn(body, d)[k] == Offset(Chunked(body, d), k)
  {
    hide IsStart, Flat;
    if body != [] {
      var n := |body| - 1;
      StartsAreOffsets(body[..n], d);
      var c0, c := Chunked(body[..n], d), Chunked(body, d);
      ChunkedIsWell(body[..n], d);
      assert c == AddLine(c0, body[n], d);
      if IsStart(body[n], d) {
        assert c.items[..|c0.items|] == c0.items;
        assert forall k :: 0 <= k < |c0.items| ==> c.items[..k] == c0.items[..k];
      } else {
        assert forall k :: 0 <= k < |c.items| ==> c.items[..k] == c0.items[..k];
      }
    }
  }

  /** The items the program's index arithmetic finds are the section's items. */
  ghost predicate Parsed(items: seq<ParsedItem>, lines: seq<string>, from: nat, to: nat)
    requires from <= to <= |lines|
  {
    var c := Items(lines[from..to]);
    && |items| == |c.items|
    && forall k :: 0 <= k < |items| ==> ParsedAs(items[k], c, k, from, IndentFor(lines[from..to]))
  }

  ghost predicate ParsedAs(item: ParsedItem, c: Chunks, k: nat, from: nat, indent: nat)
    requires k < |c.items|
  {
    && item.start == from + Offset(c, k) && item.end == item.start + |c.items[k]|
    && item.indent == indent && item.entry == Fields(c.items[k])
  }

  method ExtractFields(lines: seq<string>, start: nat, end: nat) returns (e: Entry)
    requires start <= end <= |lines|
    ensures e == Fields(lines[start..end])
  {
    hide FieldOf;
    var source: Option<string>, pin: Option<string>, subDir: Option<string> := None, None, None;
    for i := start to end
      invariant Entry(source, pin, subDir) == Fields(lines[start..i])
    {
      Grow(lines, start, i);
      match FieldOf(lines[i]) {
        case Source(v) => if source.None? { source := Some(v); }
        case Pin(v) => if pin.None? { pin := Some(v); }
        case SubDir(v) => if subDir.None? { subDir := Some(v); }
        case NoField =>
      }
    }
    e := Entry(source, pin, subDir);
  }

  method ShallowestDash(lines: seq<string>, from: nat, to: nat) returns (d: Option<nat>)
    requires from <= to <= |lines|
    ensures d == MinDash(lines[from..to])
  {
    hide IsDash, IndentOf;
    d := None;
    for i := from to to
      invariant d == MinDash(lines[from..i])
    {
      Grow(lines, from, i);
      if IsDash(lines[i]) && (d.None? || IndentOf(lines[i]) < d.value) {
        d := Some(IndentOf(lines[i]));
      }
    }
  }

  method StartLines(lines: seq<string>, from: nat, to: nat, d: nat) returns (starts: seq<nat>)
    requires from <= to <= |lines|
    ensures |starts| == |StartsIn(lines[from..to], d)|
    ensures forall k :: 0 <= k < |starts| ==> starts[k] == from + StartsIn(lines[from..to], d)[k]
  {
    hide IsDash, IndentOf;
    starts := [];
    for i := from to to
      invariant |starts| == |StartsIn(lines[from..i], d)|
      invariant forall k :: 0 <= k < |starts| ==> starts[k] == from + StartsIn(lines[from..i], d)[k]
    {
      Grow(lines, from, i);
      if IsDash(lines[i]) && IndentOf(lines[i]) == d {
        starts := starts + [i];
      }
    }
  }

  lemma ItemParts(body: seq<string>, k: nat) returns (a: seq<string>, b: seq<string>)
    requires k < |Items(body).items|
    ensures var c := Items(body);
      && body == c.pre + (a + c.items[k] + b) && WithoutItem(body, k) == c.pre + (a + b)
      && Offset(c, k) == |c.pre| + |a| && c.pre + Flat(c.items) == body
  {
    hide Items, Flat, Without;
    ItemsAre(body);
    var c := Items(body);
    FlatWithout(c.items, k);
    a, b := Flat(c.items[..k]), Flat(c.items[k + 1..]);
  }

  /** Item `k` as a slice of the section. */
  lemma ItemSlice(body: seq<string>, k: nat)
    requires k < |Items(body).items|
    ensures var c := Items(body);
      && Offset(c, k) + |c.items[k]| <= |body| && body[Offset(c, k)..Offset(c, k) + |c.items[k]|] == c.items[k]
      && Offset(c, k) + |c.items[k]| == (if k + 1 < |c.items| then Offset(c, k + 1) else |body|)
      && body[..Offset(c, k)] + body[Offset(c, k) + |c.items[k]|..] == WithoutItem(body, k)
  {
    hide *;
    var c := Items(body);
    var a, b := ItemParts(body, k);
    MiddleOut(c.pre, a, c.items[k], b);
    NextOffset(c, k);
  }

  lemma NextOffset(c: Chunks, k: nat)
    requires k < |c.items|
    ensures Offset(c, k + 1) == Offset(c, k) + |c.items[k]|
    ensures Offset(c, |c.items|) == |c.pre + Flat(c.items)|
  {
    hide Flat;
    FlatLast(c.items[..k], c.items[k]);
    assert c.items[..k + 1] == c.items[..k] + [c.items[k]];
    assert c.items[..|c.items|] == c.items;
  }

  lemma MiddleOut<T>(p: seq<T>, a: seq<T>, m: seq<T>, b: seq<T>)
    ensures var all, n := p + (a + m + b), |p| + |a|;
      n + |m| <= |all| && all[n..n + |m|] == m && all[..n] + all[n + |m|..] == p + (a + b)
  {
  }

  /** The parsed fields are the section's entries. */
  lemma ParsedEntries(items: seq<ParsedItem>, lines: seq<string>, from: nat, to: nat)
    requires from <= to <= |lines| && Parsed(items, lines, from, to)
    ensures |items| == |Entries(lines[from..to])|
    ensures forall k :: 0 <= k < |items| ==> items[k].entry == Entries(lines[from..to])[k]
  {
    hide Items, Fields;
    var body := lines[from..to];
    forall k | 0 <= k < |items| ensures items[k].entry == Entries(body)[k] {
      assert ParsedAs(items[k], Items(body), k, from, IndentFor(body));
    }
  }

  method ParseItems(lines: seq<string>, from: nat, to: nat) returns (items: seq<ParsedItem>)
    requires from <= to <= |lines|
    ensures Parsed(items, lines, from, to)
  {
    hide Fields, MinDash, Chunked, Flat, StartsIn;
    ghost var body := lines[from..to];
    var d := ShallowestDash(lines, from, to);
    items := [];
    if d.None? {
      return;
    }
    var starts := StartLines(lines, from, to, d.value);
    StartsAreOffsets(body, d.value);
    for k := 0 to |starts|
      invariant |items| == k
      invariant forall j :: 0 <= j < k ==> ParsedAs(items[j], Items(body), j, from, IndentFor(body))
    {
      ItemSlice(body, k);
      var end := if k + 1 < |starts| then starts[k + 1] else to;
      SubSlice(lines, from, to, starts[k] - from, end - from);
      var e := ExtractFields(lines, starts[k], end);
      items := items + [ParsedItem(starts[k], end, d.value, e)];
    }
  }

  lemma SubSlice<T>(s: seq<T>, from: nat, to: nat, a: nat, b: nat)
    requires from <= to <= |s| && a <= b <= to - from
    ensures s[from + a..from + b] == s[from..to][a..b]
  {
    var x, y := s[from + a..from + b], s[from..to][a..b];
    assert |x| == |y| && forall j :: 0 <= j < |x| ==> x[j] == y[j];
  }

  lemma Grow<T>(s: seq<T>, from: nat, i: nat)
    requires from <= i < |s|
    ensures s[from..i + 1] == s[from..i] + [s[i]] && s[from..i + 1][..i - from] == s[from..i]
  {
  }

  method FindMatch(items: seq<ParsedItem>, q: Query) returns (r: Result<Option<nat>, EditError>)
    ensures var m := Matching(seq(|items|, k requires 0 <= k < |items| => items[k].entry), q);
      r == if |m| == 0 then Success(None) else if |m| == 1 then Success(Some(m[0])) else Failure(Ambiguous)
  {
    hide Matches;
    ghost var entries := seq(|items|, k requires 0 <= k < |items| => items[k].entry);
    var found: seq<nat> := [];
    for k := 0 to |items|
      invariant found == Matching(entries[..k], q)
    {
      assert entries[..k + 1][..k] == entries[..k];
      if Matches(items[k].entry, q) {
        found := found + [k];
      }
    }
    assert entries[..|items|] == entries;
    r := if |found| == 0 then Success(None) else if |found| == 1 then Success(Some(found[0])) else Failure(Ambiguous);
  }

  method FindTopLevel(lines: seq<string>, key: string) returns (i: nat)
    ensures i == FirstKey(lines, key)
  {
    hide TopLevelKey, FirstKey;
    i := 0;
    while i < |lines| && TopLevelKey(lines[i]) != Some(key)
      invariant i <= |lines| && forall j :: 0 <= j < i ==> TopLevelKey(lines[j]) != Some(key)
    {
      i := i + 1;
    }
    FirstKeyIs(lines, key, i);
  }

  method NextTopLevel(lines: seq<string>, from: nat) returns (i: nat)
    requires from <= |lines|
    ensures from <= i <= |lines| && i == from + NextTop(lines[from..])
  {
    hide TopLevelKey, NextTop;
    i := from;
    while i < |lines| && TopLevelKey(lines[i]).None?
      invariant from <= i <= |lines| && forall j :: 0 <= j < i - from ==> TopLevelKey(lines[from..][j]) == None
    {
      i := i + 1;
    }
    NextTopIs(lines[from..], i - from);
  }

  /** The section found by index, as the body and the rest it delimits. */
  lemma SectionByIndex(lines: seq<string>, key: string, i: nat, end: nat)
    requires i == FirstKey(lines, key) < |lines| && i + 1 <= end <= |lines| && end == i + 1 + NextTop(lines[i + 1..])
    ensures BodyOf(lines, key) == Some(lines[i + 1..end]) && RestOf(lines, key) == lines[end..]
  {
    hide FirstKey, NextTop;
    SubSlice(lines, i + 1, |lines|, 0, end - i - 1);
    SubSlice(lines, i + 1, |lines|, end - i - 1, |lines| - i - 1);
    var below, n := lines[i + 1..], NextTop(lines[i + 1..]);
    assert below == lines[i + 1..|lines|] && below[..n] == below[0..n] && below[n..] == below[n..|below|];
  }

  /** The editor's `insert_item`. */
  method InsertItem(text: string, section: Section, item: SourceItem) returns (r: Result<string, EditError>)
    ensures r == InsertText(text, section, item)
  {
    hide FirstKey, NextTop, Render, BodyOf, RestOf, InlineValue, Lines, Joined, MinDash, TopLevelKey, KeyOf, Trim;
    var lines, key := Lines(text), KeyOf(section);
    var idx := FindTopLevel(lines, key);
    if idx < |lines| {
      var inline := InlineValue(lines[idx], key);
      if !Expandable(inline) {
        return Failure(InlineList);
      }
      var sec_end := NextTopLevel(lines, idx + 1);
      SectionByIndex(lines, key, idx, sec_end);
      var header := if inline.Some? then key + ":" else lines[idx];
      var body := InsertIntoLines(lines, idx + 1, sec_end, section, item);
      return Success(Join(lines[..idx] + [header] + body + lines[sec_end..], text));
    } else {
      var extended := lines;
      if lines != [] && Trim(lines[|lines| - 1]) != "" {
        extended := extended + [""];
      }
      extended := extended + [key + ":"];
      extended := extended + Render(item, 2, section);
      assert extended == lines + Gap(lines) + [key + ":"] + Render(item, 2, section);
      return Success(Join(extended, text));
    }
  }

  /** Back over the blank and comment lines at the end of a section. */
  method BackOverQuiet(lines: seq<string>, from: nat, to: nat) returns (at: nat)
    requires from <= to <= |lines|
    ensures from <= at <= to && at - from == TrimBack(lines[from..to], to - from)
  {
    hide IsQuiet;
    at := to;
    while at > from && IsQuiet(lines[at - 1])
      invariant from <= at <= to
      invariant TrimBack(lines[from..to], at - from) == TrimBack(lines[from..to], to - from)
    {
      at := at - 1;
    }
  }

  /** The section's lines with the new item spliced in after its last real line. */
  method InsertIntoLines(lines: seq<string>, from: nat, to: nat, section: Section, item: SourceItem)
    returns (body: seq<string>)
    requires from <= to <= |lines|
    ensures body == WithBlock(lines[from..to], Render(item, IndentFor(lines[from..to]), section))
  {
    hide Render, MinDash, TrimBack, Items, Fields, IndentFor, InsertAt, WithBlock, Parsed;
    var items := ParseItems(lines, from, to);
    ParsedCount(items, lines, from, to);
    var indent, end := 2, from;
    if items != [] {
      indent, end := items[0].indent, items[|items| - 1].end;
      LastEndsSection(items, lines, from, to);
    }
    var at := BackOverQuiet(lines, from, end);
    InsertPointIs(lines, from, to, end, at);
    BlockSlices(lines, from, to, at, Render(item, indent, section));
    body := lines[from..at] + Render(item, indent, section) + lines[at..to];
  }

  lemma ParsedCount(items: seq<ParsedItem>, lines: seq<string>, from: nat, to: nat)
    requires from <= to <= |lines| && Parsed(items, lines, from, to)
    ensures items == [] <==> Items(lines[from..to]).items == []
    ensures items == [] ==> IndentFor(lines[from..to]) == 2
  {
    hide Items, MinDash;
    ItemsAre(lines[from..to]);
  }

  lemma InsertPointIs(lines: seq<string>, from: nat, to: nat, end: nat, at: nat)
    requires from <= at <= end <= to <= |lines| && at - from == TrimBack(lines[from..end], end - from)
    requires end == if Items(lines[from..to]).items == [] then from else to
    ensures at - from == InsertAt(lines[from..to])
  {
    hide Items, IsQuiet;
  }

  lemma BlockSlices(lines: seq<string>, from: nat, to: nat, at: nat, block: seq<string>)
    requires from <= at <= to <= |lines| && at - from == InsertAt(lines[from..to])
    ensures WithBlock(lines[from..to], block) == lines[from..at] + block + lines[at..to]
  {
    hide InsertAt;
    SubSlice(lines, from, to, 0, at - from);
    SubSlice(lines, from, to, at - from, to - from);
    var body := lines[from..to];
    assert body[..at - from] == body[0..at - from] && body[at - from..] == body[at - from..to - from];
  }

  lemma LastEndsSection(items: seq<ParsedItem>, lines: seq<string>, from: nat, to: nat)
    requires from <= to <= |lines| && Parsed(items, lines, from, to) && items != []
    ensures items[0].indent == IndentFor(lines[from..to]) && items[|items| - 1].end == to
    ensures Items(lines[from..to]).items != []
  {
    hide Items, Fields, IndentFor, Offset;
    var body, m := lines[from..to], |items| - 1;
    assert ParsedAs(items[0], Items(body), 0, from, IndentFor(body));
    assert ParsedAs(items[m], Items(body), m, from, IndentFor(body));
    ItemSlice(body, m);
  }

  /** The editor's `remove_item`. */
  method RemoveItem(text: string, section: Section, q: Query) returns (r: Result<(string, bool), EditError>)
    ensures r == RemoveText(text, section, q)
  {
    hide FirstKey, NextTop, BodyOf, RestOf, Lines, Joined, MinDash, TopLevelKey, KeyOf, Matching, Items, Fields, WithoutItem, Flat;
    var lines, key := Lines(text), KeyOf(section);
    var idx := FindTopLevel(lines, key);
    if idx == |lines| {
      return Success((text, false));
    }
    var sec_end := NextTopLevel(lines, idx + 1);
    SectionByIndex(lines, key, idx, sec_end);
    var items := ParseItems(lines, idx + 1, sec_end);
    ghost var body := lines[idx + 1..sec_end];
    var found := FindMatch(items, q);
    ParsedEntries(items, lines, idx + 1, sec_end);
    assert seq(|items|, k requires 0 <= k < |items| => items[k].entry) == Entries(body);
    match found {
      case Failure(e) => return Failure(e);
      case Success(None) => return Success((text, false));
      case Success(Some(k)) =>
        var start, end := items[k].start, items[k].end;
        assert ParsedAs(items[k], Items(body), k, idx + 1, IndentFor(body));
        ItemSlice(body, k);
        DrainIs(lines, idx, sec_end, start, end);
        return Success((Join(lines[..start] + lines[end..], text), true));
    }
  }

  lemma DrainIs<T>(lines: seq<T>, i: nat, to: nat, start: nat, end: nat)
    requires i < |lines| && i + 1 <= start <= end <= to <= |lines|
    ensures var body := lines[i + 1..to];
      lines[..start] + lines[end..]
        == lines[..i] + [lines[i]] + (body[..start - i - 1] + body[end - i - 1..]) + lines[to..]
  {
  }

  /** The identity `item_exists` looks for. */
  predicate SameIdentity(e: Entry, item: SourceItem) {
    && e.source == Some(item.source)
    && (if e.pin.Some? then e.pin.value else "") == (if item.pin.NoPin? then "" else item.pin.value)
    && (if e.subDir.Some? then e.subDir.value else "") == (if item.subDir.Some? then item.subDir.value else "")
  }

  /** The editor's `item_exists`. */
  method ItemExists(text: string, section: Section, item: SourceItem) returns (found: bool)
    ensures found <==> exists k :: 0 <= k < |EntriesIn(Lines(text), section)| && SameIdentity(EntriesIn(Lines(text), section)[k], item)
  {
    hide FirstKey, NextTop, BodyOf, RestOf, Lines, MinDash, TopLevelKey, KeyOf, Items, Fields, SameIdentity, Flat, Entries;
    var lines, key := Lines(text), KeyOf(section);
    var idx := FindTopLevel(lines, key);
    found := false;
    if idx == |lines| {
      assert EntriesIn(Lines(text), section) == [];
      return;
    }
    var sec_end := NextTopLevel(lines, idx + 1);
    SectionByIndex(lines, key, idx, sec_end);
    var items := ParseItems(lines, idx + 1, sec_end);
    ghost var body := lines[idx + 1..sec_end];
    ParsedEntries(items, lines, idx + 1, sec_end);
    ghost var entries := Entries(body);
    assert EntriesIn(lines, section) == entries;
    for k := 0 to |items|
      invariant found <==> exists j :: 0 <= j < k && SameIdentity(entries[j], item)
    {
      if SameIdentity(items[k].entry, item) {
        assert SameIdentity(entries[k], item);
        found := true;
      }
    }
    assert EntriesIn(Lines(text), section) == entries;
  }

  /** After a successful insert `item_exists` finds the item. */
  lemma InsertedExists(text: string, section: Section, item: SourceItem)
    requires CleanItem(item) && ReturnsPaired(text) && InsertText(text, section, item).Success?
    requires NoStrayFields(Lines(text), section, EntryOf(item))
    ensures var entries := EntriesIn(Lines(InsertText(text, section, item).value), section);
      exists k :: 0 <= k < |entries| && SameIdentity(entries[k], item)
  {
    hide CleanItem, InsertText, EntriesIn, Lines, NoStrayFields;
    InsertTextRefinesAppend(text, section, item);
    var before := EntriesIn(Lines(text), section);
    var entries := EntriesIn(Lines(InsertText(text, section, item).value), section);
    assert entries[|before|] == EntryOf(item);
    assert SameIdentity(EntryOf(item), item);
  }
}
