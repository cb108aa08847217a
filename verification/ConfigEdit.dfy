/** The surgical config editor: inserting and removing one source entry in the raw lines of a config file, shown
    to refine a list of entries per section, with every other line and section kept in order. */
module ConfigEdit {
  import opened Collections
  import opened YamlLines
  import opened SectionItems
  import opened TextLines

  datatype Section = Skills | Mcps | Commands

  function KeyOf(section: Section): string {
    match section
    case Skills => "skills"
    case Mcps => "mcps"
    case Commands => "commands"
  }

  datatype PinSpec = RefPin(value: string) | BranchPin(value: string) | NoPin
  datatype Selector = Wildcard | Names(names: seq<string>)
  datatype SourceItem = SourceItem(source: string, pin: PinSpec, subDir: Option<string>, selector: Selector)

  datatype EditError = InlineList | Ambiguous

  function PinValue(pin: PinSpec): Option<string> {
    if pin.NoPin? then None else Some(pin.value)
  }

  function EntryOf(item: SourceItem): Entry {
    Entry(Some(item.source), PinValue(item.pin), item.subDir)
  }

  // ------------------------------------------------------------- a new item's lines

  function FieldLine(n: nat, key: string, v: string): string { Spaces(n) + (key + ":" + v) }

  function PinLines(pin: PinSpec, n: nat): seq<string> {
    match pin
    case RefPin(r) => [FieldLine(n, "ref", " " + r)]
    case BranchPin(b) => [FieldLine(n, "branch", " " + b)]
    case NoPin => []
  }

  function SubDirLines(subDir: Option<string>, n: nat): seq<string> {
    if subDir.Some? then [FieldLine(n, "sub-dir", " " + subDir.value)] else []
  }

  function NameLines(names: seq<string>, n: nat): seq<string> {
    if names == [] then [] else NameLines(names[..|names| - 1], n) + [Spaces(n) + ("- " + names[|names| - 1])]
  }

  function SelectorLines(selector: Selector, key: string, n: nat): seq<string> {
    match selector
    case Wildcard => [FieldLine(n, key, " \"*\"")]
    case Names(names) => [FieldLine(n, key, "")] + NameLines(names, n + 2)
  }

  function Render(item: SourceItem, indent: nat, section: Section): seq<string> {
    [Spaces(indent) + ("- " + ("source" + ":" + (" " + item.source)))]
    + PinLines(item.pin, indent + 2)
    + SubDirLines(item.subDir, indent + 2)
    + SelectorLines(item.selector, KeyOf(section), indent + 2)
  }

  /** Values that read back as themselves, and names that do not read as a field the item lacks. */
  ghost predicate CleanItem(item: SourceItem) {
    && CleanValue(item.source)
    && (!item.pin.NoPin? ==> CleanValue(item.pin.value))
    && (item.subDir.Some? ==> CleanValue(item.subDir.value))
    && (item.selector.Names? ==> forall i :: 0 <= i < |item.selector.names| ==> CleanName(item.selector.names[i], EntryOf(item)))
  }

  ghost predicate CleanName(name: string, e: Entry) {
    CleanLine("- " + name) && Then(e, OfField(FieldOf("- " + name))) == e
  }

  /** A line inside an item: nested deeper than `d`, so neither a top-level key nor the start of an item. */
  ghost predicate Inner(l: string, d: nat) {
    l != [] && CleanLine(l) && TopLevelKey(l) == None && (IsDash(l) ==> d < IndentOf(l))
  }

  ghost predicate AllInner(lines: seq<string>, d: nat) {
    forall i :: 0 <= i < |lines| ==> Inner(lines[i], d)
  }

  lemma {:induction false} PaddedIsClean(n: nat, t: string)
    requires CleanLine(t) && t != []
    ensures CleanLine(Spaces(n) + t)
  {
    var l := Spaces(n) + t;
    assert l[|l| - 1] == t[|t| - 1];
    assert forall c :: c in l ==> c == ' ' || c in t;
  }

  lemma CleanValueLine(key: string, v: string)
    requires CleanValue(v) && '\n' !in key
    ensures CleanLine(key + ":" + (" " + v))
  {
    hide Unquoted, IsSpace;
    var l := key + ":" + (" " + v);
    CarriageReturnIsSpace();
    assert TrimEnd(v) == v;
    TrimEndIsPrefix(v);
    if v != [] {
      assert l[|l| - 1] == v[|v| - 1];
    } else {
      assert l[|l| - 1] == ' ';
    }
  }

  lemma CarriageReturnIsSpace()
    ensures IsSpace('\r')
  {
  }

  predicate PlainKey(key: string) { Word(key) && !IsNested(key[0]) && '\n' !in key }

  lemma FieldIsInner(n: nat, d: nat, key: string, v: string)
    requires n > 0 && PlainKey(key) && CleanLine(key + ":" + v)
    ensures Inner(FieldLine(n, key, v), d)
    ensures FieldKv(FieldLine(n, key, v)) == Some((key, Unquoted(v)))
  {
    hide Word, IsDash, IndentOf, TopLevelKey, Unquoted, FieldKv, IsQuiet, CleanLine;
    PaddedField(n, key, v);
    PaddedIsClean(n, key + ":" + v);
  }

  lemma KeysArePlain()
    ensures PlainKey("source") && PlainKey("ref") && PlainKey("branch") && PlainKey("sub-dir")
    ensures forall section :: PlainKey(KeyOf(section))
  {
    hide PlainKey;
    LowerCaseIsPlain("source");
    LowerCaseIsPlain("ref");
    LowerCaseIsPlain("branch");
    LowerCaseIsPlain("sub-dir");
    forall section ensures PlainKey(KeyOf(section)) {
      LowerCaseIsPlain(KeyOf(section));
    }
  }

  lemma LowerCaseIsPlain(key: string)
    requires key != [] && key[0] != '-' && forall c :: c in key ==> c == '-' || 'a' <= c <= 'z'
    ensures PlainKey(key)
  {
    assert forall i :: 0 <= i < |key| ==> key[i] in key;
  }

  lemma SectionKeyIsNoField(section: Section, v: string)
    ensures FieldNamed(Some((KeyOf(section), v))) == NoField
  {
  }

  lemma PinLinesAre(pin: PinSpec, n: nat, d: nat)
    requires n > 0 && (!pin.NoPin? ==> CleanValue(pin.value))
    ensures AllInner(PinLines(pin, n), d)
    ensures Fields(PinLines(pin, n)) == Entry(None, PinValue(pin), None)
  {
    hide FieldKv, Inner, CleanLine, PlainKey, Fields, Unquoted, CleanValue, FieldLine;
    KeysArePlain();
    if !pin.NoPin? {
      var key := if pin.RefPin? then "ref" else "branch";
      CleanValueLine(key, pin.value);
      FieldIsInner(n, d, key, " " + pin.value);
      SpaceIsTrimmed(pin.value);
      CleanIsUnquoted(pin.value);
      OneField(FieldLine(n, key, " " + pin.value));
    } else {
      NoFields([]);
    }
  }

  lemma CleanIsUnquoted(v: string)
    requires CleanValue(v)
    ensures Unquoted(v) == v
  {
  }

  lemma SubDirLinesAre(subDir: Option<string>, n: nat, d: nat)
    requires n > 0 && (subDir.Some? ==> CleanValue(subDir.value))
    ensures AllInner(SubDirLines(subDir, n), d)
    ensures Fields(SubDirLines(subDir, n)) == Entry(None, None, subDir)
  {
    hide FieldKv, Inner, CleanLine, PlainKey, Fields, Unquoted, CleanValue, FieldLine;
    KeysArePlain();
    if subDir.Some? {
      CleanValueLine("sub-dir", subDir.value);
      FieldIsInner(n, d, "sub-dir", " " + subDir.value);
      SpaceIsTrimmed(subDir.value);
      CleanIsUnquoted(subDir.value);
      OneField(FieldLine(n, "sub-dir", " " + subDir.value));
    } else {
      NoFields([]);
    }
  }

  lemma {:induction false} NameLinesAre(names: seq<string>, n: nat, d: nat, e: Entry)
    requires n > d && forall i :: 0 <= i < |names| ==> CleanName(names[i], e)
    ensures AllInner(NameLines(names, n), d)
    ensures Then(e, Fields(NameLines(names, n))) == e
    decreases |names|
  {
    hide FieldOf, CleanLine, Fields, IsDash, IndentOf, TopLevelKey;
    if names != [] {
      var last := names[|names| - 1];
      NameLinesAre(names[..|names| - 1], n, d, e);
      DashedName(n, last);
      PaddedIsClean(n, "- " + last);
      OneField(Spaces(n) + ("- " + last));
      FieldsConcat(NameLines(names[..|names| - 1], n), [Spaces(n) + ("- " + last)]);
      assert CleanName(last, e);
      ThenTwice(e, Fields(NameLines(names[..|names| - 1], n)), OfField(FieldOf("- " + last)));
    } else {
      NoFields([]);
    }
  }

  lemma ThenTwice(e: Entry, a: Entry, b: Entry)
    ensures Then(e, Then(a, b)) == Then(Then(e, a), b)
  {
  }

  lemma SelectorLinesAre(item: SourceItem, section: Section, n: nat, d: nat)
    requires n > d && CleanItem(item)
    ensures AllInner(SelectorLines(item.selector, KeyOf(section), n), d)
    ensures SelectorLines(item.selector, KeyOf(section), n) != []
    ensures Then(EntryOf(item), Fields(SelectorLines(item.selector, KeyOf(section), n))) == EntryOf(item)
  {
    hide FieldKv, Inner, CleanLine, PlainKey, Fields, Unquoted, CleanValue, FieldLine, CleanName, KeyOf, NameLines, FieldNamed;
    KeysArePlain();
    var key := KeyOf(section);
    var v := if item.selector.Wildcard? then " \"*\"" else "";
    SelectorTextIsClean(key);
    FieldIsInner(n, d, key, v);
    OneField(FieldLine(n, key, v));
    SectionKeyIsNoField(section, Unquoted(v));
    if item.selector.Names? {
      NameLinesAre(item.selector.names, n + 2, d, EntryOf(item));
      FieldsConcat([FieldLine(n, key, v)], NameLines(item.selector.names, n + 2));
    }
  }

  lemma SelectorTextIsClean(key: string)
    requires PlainKey(key)
    ensures CleanLine(key + ":" + " \"*\"") && CleanLine(key + ":" + "")
  {
    hide Word;
    var a, b := key + ":" + " \"*\"", key + ":" + "";
    assert a[|a| - 1] == '"' && b[|b| - 1] == ':';
  }

  lemma InnerLinesStart(first: string, inner: seq<string>, d: nat)
    requires IsStart(first, d) && AllInner(inner, d)
    ensures WellItem([first] + inner, d) && NoShallower([first] + inner, d)
  {
    hide IsDash, IndentOf, CleanLine, TopLevelKey;
    assert ([first] + inner)[1..] == inner;
    assert forall i :: 0 <= i < |inner| ==> Inner(inner[i], d);
  }

  lemma AllInnerConcat(a: seq<string>, b: seq<string>, d: nat)
    requires AllInner(a, d) && AllInner(b, d)
    ensures AllInner(a + b, d)
  {
    hide Inner;
  }

  /** The lines of a new item form one item, at the requested indentation, that reads back as the entry. */
  lemma RenderReadsBack(item: SourceItem, d: nat, section: Section)
    requires CleanItem(item)
    ensures IsBlock(Render(item, d, section), d, EntryOf(item))
    ensures forall i :: 0 <= i < |Render(item, d, section)| ==>
              TopLevelKey(Render(item, d, section)[i]) == None && CleanLine(Render(item, d, section)[i])
              && Render(item, d, section)[i] != []
  {
    hide FieldKv, Inner, CleanLine, PlainKey, Fields, Unquoted, CleanValue, FieldLine, CleanName, KeyOf,
      IsDash, IndentOf, TopLevelKey, IsQuiet, WellItem, NoShallower, FieldNamed, SelectorLines, PinLines, SubDirLines;
    var first := Spaces(d) + ("- " + ("source" + ":" + (" " + item.source)));
    var pin, sub := PinLines(item.pin, d + 2), SubDirLines(item.subDir, d + 2);
    var sel := SelectorLines(item.selector, KeyOf(section), d + 2);
    FirstLineIs(item.source, d);
    PinLinesAre(item.pin, d + 2, d);
    SubDirLinesAre(item.subDir, d + 2, d);
    SelectorLinesAre(item, section, d + 2, d);
    AllInnerConcat(pin, sub, d);
    AllInnerConcat(pin + sub, sel, d);
    var inner := pin + sub + sel;
    assert Render(item, d, section) == [first] + inner;
    InnerLinesStart(first, inner, d);
    InnerIs(inner, d);
    OneField(first);
    FieldsConcat([first], inner);
    FieldsConcat(pin + sub, sel);
    FieldsConcat(pin, sub);
    ThenTwice(OfField(Source(item.source)), Fields(pin + sub), Fields(sel));
  }

  lemma InnerIs(lines: seq<string>, d: nat)
    requires AllInner(lines, d)
    ensures forall i :: 0 <= i < |lines| ==> TopLevelKey(lines[i]) == None && CleanLine(lines[i]) && lines[i] != []
  {
    hide CleanLine, TopLevelKey, IsDash, IndentOf;
    forall i | 0 <= i < |lines| ensures TopLevelKey(lines[i]) == None && CleanLine(lines[i]) && lines[i] != [] {
      assert Inner(lines[i], d);
    }
  }

  lemma FirstLineIs(source: string, d: nat)
    requires CleanValue(source)
    ensures var first := Spaces(d) + ("- " + ("source" + ":" + (" " + source)));
      && IsStart(first, d) && FieldOf(first) == Source(source)
      && TopLevelKey(first) == None && CleanLine(first) && first != []
  {
    hide FieldKv, CleanLine, Unquoted, CleanValue, IsDash, IndentOf, TopLevelKey, IsQuiet, Word;
    var t := "source" + ":" + (" " + source);
    KeysArePlain();
    PlainIsWord("source");
    DashedField(d, "source", " " + source);
    SpaceIsTrimmed(source);
    CleanIsUnquoted(source);
    CleanValueLine("- source", source);
    assert "- " + t == "- source" + ":" + (" " + source);
    PaddedIsClean(d, "- " + t);
  }

  lemma PlainIsWord(key: string)
    requires PlainKey(key)
    ensures Word(key)
  {
  }

  // ------------------------------------------------------------------ documents

  /** The first top-level line with this key, or the end. */
  function FirstKey(lines: seq<string>, key: string): (i: nat)
    ensures i <= |lines|
    ensures i < |lines| ==> TopLevelKey(lines[i]) == Some(key)
    ensures forall j :: 0 <= j < i ==> TopLevelKey(lines[j]) != Some(key)
  {
    if lines == [] || TopLevelKey(lines[0]) == Some(key) then 0 else 1 + FirstKey(lines[1..], key)
  }

  /** How many lines come before the next top-level key. */
  function NextTop(lines: seq<string>): (i: nat)
    ensures i <= |lines|
    ensures i < |lines| ==> TopLevelKey(lines[i]).Some?
    ensures forall j :: 0 <= j < i ==> TopLevelKey(lines[j]) == None
  {
    if lines == [] || TopLevelKey(lines[0]).Some? then 0 else 1 + NextTop(lines[1..])
  }

  /** The lines below a section's header. */
  function BodyOf(lines: seq<string>, key: string): (body: Option<seq<string>>)
    ensures body.Some? <==> FirstKey(lines, key) < |lines|
  {
    var i := FirstKey(lines, key);
    if i == |lines| then None else Some(lines[i + 1..][..NextTop(lines[i + 1..])])
  }

  /** The lines from the next section on. */
  function RestOf(lines: seq<string>, key: string): seq<string> {
    var i := FirstKey(lines, key);
    if i == |lines| then [] else lines[i + 1..][NextTop(lines[i + 1..])..]
  }

  function EntriesIn(lines: seq<string>, section: Section): seq<Entry> {
    var body := BodyOf(lines, KeyOf(section));
    if body.None? then [] else Entries(body.value)
  }

  /** Only an empty inline list may be turned into a block list. */
  predicate Expandable(inline: Option<string>) {
    inline.Some? ==> inline.value == "" || inline.value == "[]" || inline.value == "{}"
  }

  /** What a fresh section starts with. */
  function Gap(lines: seq<string>): seq<string> {
    if lines != [] && Trim(lines[|lines| - 1]) != "" then [""] else []
  }

  function InsertLines(lines: seq<string>, section: Section, item: SourceItem): Result<seq<string>, EditError> {
    var key := KeyOf(section);
    match BodyOf(lines, key)
    case Some(body) =>
      var i := FirstKey(lines, key);
      var inline := InlineValue(lines[i], key);
      if !Expandable(inline) then Failure(InlineList)
      else
        var header := if inline.Some? then key + ":" else lines[i];
        Success(lines[..i] + [header] + WithBlock(body, Render(item, IndentFor(body), section)) + RestOf(lines, key))
    case None =>
      Success(lines + Gap(lines) + [key + ":"] + Render(item, 2, section))
  }

  /** What `remove` looks for: a source, and optionally a pin and a sub-directory. */
  datatype Query = Query(source: string, pin: Option<string>, subDir: Option<string>)

  predicate Matches(e: Entry, q: Query) {
    && e.source == Some(q.source)
    && (q.pin.Some? ==> e.pin == q.pin)
    && (q.subDir.Some? ==> (if e.subDir.Some? then e.subDir.value else "") == q.subDir.value)
  }

  function Matching(entries: seq<Entry>, q: Query): (r: seq<nat>)
    ensures forall i :: 0 <= i < |r| ==> r[i] < |entries| && Matches(entries[r[i]], q)
    ensures forall i, j :: 0 <= i < j < |r| ==> r[i] < r[j]
  {
    if entries == [] then []
    else
      Matching(entries[..|entries| - 1], q)
      + (if Matches(entries[|entries| - 1], q) then [|entries| - 1] else [])
  }

  /** `None` when nothing matches and the text stays as it is. */
  function RemoveLines(lines: seq<string>, section: Section, q: Query): Result<Option<seq<string>>, EditError> {
    var key := KeyOf(section);
    match BodyOf(lines, key)
    case None => Success(None)
    case Some(body) =>
      var found := Matching(Entries(body), q);
      if |found| == 0 then Success(None)
      else if |found| == 1 then
        var i := FirstKey(lines, key);
        Success(Some(lines[..i] + [lines[i]] + WithoutItem(body, found[0]) + RestOf(lines, key)))
      else Failure(Ambiguous)
  }

  // -------------------------------------------- what an edit leaves as it was

  lemma {:induction false} FirstKeyIs(lines: seq<string>, key: string, i: nat)
    requires i <= |lines| && (i < |lines| ==> TopLevelKey(lines[i]) == Some(key))
    requires forall j :: 0 <= j < i ==> TopLevelKey(lines[j]) != Some(key)
    ensures FirstKey(lines, key) == i
  {
  }

  lemma {:induction false} NextTopIs(lines: seq<string>, i: nat)
    requires i <= |lines| && (i < |lines| ==> TopLevelKey(lines[i]).Some?)
    requires forall j :: 0 <= j < i ==> TopLevelKey(lines[j]) == None
    ensures NextTop(lines) == i
  {
  }

  ghost predicate NoTopKeys(lines: seq<string>) {
    forall i :: 0 <= i < |lines| ==> TopLevelKey(lines[i]) == None
  }

  /** The rest of a file after a section: nothing, or the next section on. */
  ghost predicate FromTopKey(rest: seq<string>) {
    rest != [] ==> TopLevelKey(rest[0]).Some?
  }

  ghost predicate WithoutKey(lines: seq<string>, key: string) {
    forall i :: 0 <= i < |lines| ==> TopLevelKey(lines[i]) != Some(key)
  }

  lemma SkipPrefix(p: seq<string>, lines: seq<string>, key: string)
    requires WithoutKey(p, key)
    ensures FirstKey(p + lines, key) == |p| + FirstKey(lines, key)
    ensures BodyOf(p + lines, key) == BodyOf(lines, key) && RestOf(p + lines, key) == RestOf(lines, key)
  {
    hide TopLevelKey, FirstKey, NextTop;
    var i := FirstKey(lines, key);
    FirstKeyIs(p + lines, key, |p| + i);
    if i < |lines| {
      assert (p + lines)[|p| + i + 1..] == lines[i + 1..];
    }
  }

  lemma BodyAtStart(header: string, body: seq<string>, rest: seq<string>, key: string)
    requires TopLevelKey(header) == Some(key) && NoTopKeys(body) && FromTopKey(rest)
    ensures FirstKey([header] + (body + rest), key) == 0
    ensures BodyOf([header] + (body + rest), key) == Some(body) && RestOf([header] + (body + rest), key) == rest
  {
    hide TopLevelKey, FirstKey, NextTop;
    var lines := [header] + (body + rest);
    FirstKeyIs(lines, key, 0);
    assert lines[1..] == body + rest;
    NextTopIs(body + rest, |body|);
    assert (body + rest)[..|body|] == body && (body + rest)[|body|..] == rest;
  }

  /** The body of a section found after `head` and its header. */
  lemma BodyIs(head: seq<string>, header: string, body: seq<string>, rest: seq<string>, key: string)
    requires WithoutKey(head, key) && TopLevelKey(header) == Some(key) && NoTopKeys(body) && FromTopKey(rest)
    ensures BodyOf(head + [header] + body + rest, key) == Some(body)
    ensures RestOf(head + [header] + body + rest, key) == rest
    ensures FirstKey(head + [header] + body + rest, key) == |head|
  {
    hide *;
    BodyAtStart(header, body, rest, key);
    SkipPrefix(head, [header] + (body + rest), key);
    assert head + [header] + body + rest == head + ([header] + (body + rest));
  }

  lemma PrefixDecides(p: seq<string>, a: seq<string>, b: seq<string>, key: string)
    requires !WithoutKey(p, key) && FromTopKey(a) && FromTopKey(b)
    ensures BodyOf(p + a, key) == BodyOf(p + b, key)
  {
    hide TopLevelKey, FirstKey, NextTop;
    var i := FirstKey(p, key);
    FirstKeyIs(p + a, key, i);
    FirstKeyIs(p + b, key, i);
    var tail := p[i + 1..];
    assert (p + a)[i + 1..] == tail + a && (p + b)[i + 1..] == tail + b;
    var n := NextTop(tail);
    NextTopIs(tail + a, n);
    NextTopIs(tail + b, n);
    assert (tail + a)[..n] == tail[..n] == (tail + b)[..n];
  }

  /** Rewriting one section's header and body leaves every other section's lines exactly as they were. */
  lemma OthersKept(head: seq<string>, header: string, header': string, body: seq<string>, body': seq<string>,
                   rest: seq<string>, key: string, other: string)
    requires TopLevelKey(header) == Some(key) == TopLevelKey(header') && other != key
    requires NoTopKeys(body) && NoTopKeys(body') && FromTopKey(rest)
    ensures BodyOf(head + [header'] + body' + rest, other) == BodyOf(head + [header] + body + rest, other)
  {
    hide TopLevelKey, BodyOf, RestOf, FirstKey, WithoutKey, FromTopKey, NoTopKeys;
    var a, b := [header] + body, [header'] + body';
    OtherSection(header, body, rest, key, other);
    OtherSection(header', body', rest, key, other);
    Regroup(head, header, body, rest);
    Regroup(head, header', body', rest);
    if WithoutKey(head, other) {
      SkipPrefix(head, a + rest, other);
      SkipPrefix(head, b + rest, other);
      SkipPrefix(a, rest, other);
      SkipPrefix(b, rest, other);
    } else {
      PrefixDecides(head, a + rest, b + rest, other);
    }
  }

  lemma Regroup<T>(head: seq<T>, x: T, body: seq<T>, rest: seq<T>)
    ensures head + [x] + body + rest == head + (([x] + body) + rest)
  {
  }

  lemma OtherSection(header: string, body: seq<string>, rest: seq<string>, key: string, other: string)
    requires TopLevelKey(header) == Some(key) && other != key && NoTopKeys(body)
    ensures WithoutKey([header] + body, other) && FromTopKey(([header] + body) + rest)
  {
    hide TopLevelKey;
    assert (([header] + body) + rest)[0] == header;
  }

  /** A file seen around one of its sections. */
  lemma SectionSplits(lines: seq<string>, key: string)
    requires BodyOf(lines, key).Some?
    ensures var i, body, rest := FirstKey(lines, key), BodyOf(lines, key).value, RestOf(lines, key);
      && TopLevelKey(lines[i]) == Some(key) && WithoutKey(lines[..i], key) && NoTopKeys(body) && FromTopKey(rest)
      && lines == lines[..i] + [lines[i]] + body + rest
  {
    hide TopLevelKey, FirstKey, NextTop;
  }

  // ------------------------------------------------------------- insert, on lines

  lemma KeysAreApart(a: Section, b: Section)
    ensures KeyOf(a) == KeyOf(b) <==> a == b
  {
    assert KeyOf(Skills)[0] == 's' && KeyOf(Mcps)[0] == 'm' && KeyOf(Commands)[0] == 'c';
  }

  lemma HeaderReads(key: string)
    requires PlainKey(key)
    ensures TopLevelKey(key + ":") == Some(key)
  {
    hide TopLevelKey, InlineValue, Word;
    PlainIsWord(key);
    BareHeader(key);
  }

  lemma BlockHasNoTopKeys(body: seq<string>, block: seq<string>)
    requires NoTopKeys(body) && NoTopKeys(block)
    ensures NoTopKeys(WithBlock(body, block))
  {
    hide TopLevelKey, InsertAt;
  }

  /** Inserting into an existing section: where the new lines go, and what the section becomes. */
  lemma InsertIntoSection(lines: seq<string>, section: Section, item: SourceItem)
    requires CleanItem(item) && BodyOf(lines, KeyOf(section)).Some? && InsertLines(lines, section, item).Success?
    ensures var key, body := KeyOf(section), BodyOf(lines, KeyOf(section)).value;
      var block, after := Render(item, IndentFor(body), section), InsertLines(lines, section, item).value;
      && after == lines[..FirstKey(lines, key)] + [key + ":"] + WithBlock(body, block) + RestOf(lines, key)
      && BodyOf(after, key) == Some(WithBlock(body, block)) && RestOf(after, key) == RestOf(lines, key)
      && FirstKey(after, key) == FirstKey(lines, key)
      && IsBlock(block, IndentFor(body), EntryOf(item))
    ensures forall other :: other != section ==>
              BodyOf(InsertLines(lines, section, item).value, KeyOf(other)) == BodyOf(lines, KeyOf(other))
  {
    hide TopLevelKey, FirstKey, NextTop, Render, BodyOf, RestOf, IsBlock, KeyOf, PlainKey, CleanItem, InlineValue, CleanLine,
      WithBlock, IndentFor, EntryOf;
    var key, body, rest := KeyOf(section), BodyOf(lines, KeyOf(section)).value, RestOf(lines, KeyOf(section));
    var i := FirstKey(lines, key);
    var block := Render(item, IndentFor(body), section);
    SectionSplits(lines, key);
    RenderReadsBack(item, IndentFor(body), section);
    KeysArePlain();
    HeaderReads(key);
    BlockHasNoTopKeys(body, block);
    TopLevelLine(lines[i], key);
    BodyIs(lines[..i], key + ":", WithBlock(body, block), rest, key);
    forall other | other != section
      ensures BodyOf(InsertLines(lines, section, item).value, KeyOf(other)) == BodyOf(lines, KeyOf(other))
    {
      KeysAreApart(section, other);
      OthersKept(lines[..i], lines[i], key + ":", body, WithBlock(body, block), rest, key, KeyOf(other));
    }
  }

  lemma BlankLine()
    ensures IsQuiet("") && TopLevelKey("") == None
  {
  }

  /** Lines appended after the last section, blank up to the first new top-level key, change no entry. */
  lemma BelowKeeps(below: seq<string>, gap: seq<string>, tail: seq<string>)
    requires gap == [] || gap == [""]
    requires tail != [] && TopLevelKey(tail[0]).Some?
    ensures Entries((below + gap + tail)[..NextTop(below + gap + tail)]) == Entries(below[..NextTop(below)])
  {
    hide TopLevelKey, NextTop, IsQuiet, Entries;
    BlankLine();
    var n := NextTop(below);
    if n < |below| {
      NextTopIs(below + gap + tail, n);
      assert (below + gap + tail)[..n] == below[..n];
    } else {
      NextTopIs(below + gap + tail, n + |gap|);
      assert (below + gap + tail)[..n + |gap|] == below + gap;
      assert below[..n] == below;
      QuietAppend(below, gap);
    }
  }

  /** Appending lines without a section's key leaves its entries alone when the lines before the first
      new top-level key are blank. */
  lemma AppendKeeps(lines: seq<string>, gap: seq<string>, tail: seq<string>, key: string)
    requires gap == [] || gap == [""]
    requires WithoutKey(tail, key) && tail != [] && TopLevelKey(tail[0]).Some?
    ensures BodyOf(lines + gap + tail, key).Some? <==> BodyOf(lines, key).Some?
    ensures BodyOf(lines, key).Some? ==>
              Entries(BodyOf(lines + gap + tail, key).value) == Entries(BodyOf(lines, key).value)
  {
    hide TopLevelKey, FirstKey, NextTop, IsQuiet, Entries;
    var i := FirstKey(lines, key);
    var all := lines + gap + tail;
    if i < |lines| {
      FirstKeyIs(all, key, i);
      BelowKeeps(lines[i + 1..], gap, tail);
      assert all[i + 1..] == lines[i + 1..] + gap + tail;
    } else {
      BlankLine();
      FirstKeyIs(all, key, |all|);
    }
  }

  lemma InsertFresh(lines: seq<string>, section: Section, item: SourceItem)
    requires CleanItem(item) && BodyOf(lines, KeyOf(section)).None?
    ensures InsertLines(lines, section, item).Success?
    ensures var after := InsertLines(lines, section, item).value;
      && after == lines + Gap(lines) + [KeyOf(section) + ":"] + Render(item, 2, section) + []
      && FirstKey(after, KeyOf(section)) == |lines + Gap(lines)|
      && BodyOf(after, KeyOf(section)) == Some(Render(item, 2, section))
      && IsBlock(Render(item, 2, section), 2, EntryOf(item)) && NoTopKeys(Render(item, 2, section))
    ensures forall other :: other != section ==>
              EntriesIn(InsertLines(lines, section, item).value, other) == EntriesIn(lines, other)
  {
    hide TopLevelKey, FirstKey, NextTop, Render, IsBlock, KeyOf, PlainKey, CleanItem, InlineValue, CleanLine, Entries,
      EntryOf, Trim, BodyOf;
    var key, block := KeyOf(section), Render(item, 2, section);
    RenderReadsBack(item, 2, section);
    KeysArePlain();
    HeaderReads(key);
    BlankLine();
    var head := lines + Gap(lines);
    assert InsertLines(lines, section, item).value == head + [key + ":"] + block + [];
    BodyIs(head, key + ":", block, [], key);
    forall other | other != section ensures EntriesIn(InsertLines(lines, section, item).value, other) == EntriesIn(lines, other) {
      KeysAreApart(section, other);
      assert InsertLines(lines, section, item).value == lines + Gap(lines) + ([key + ":"] + block);
      AppendKeeps(lines, Gap(lines), [key + ":"] + block, KeyOf(other));
    }
  }

  /** The section has items, or none of its lines carries a pin or sub-directory the new item lacks. */
  ghost predicate NoStrayFields(lines: seq<string>, section: Section, e: Entry) {
    var body := BodyOf(lines, KeyOf(section));
    body.Some? && MinDash(body.value).None? ==> Then(e, Fields(body.value)) == e
  }

  /** A successful insert appends exactly the new entry to its section's list, if and only if there is no
      stray field for it to pick up, and changes no other section's list. */
  lemma InsertRefinesAppend(lines: seq<string>, section: Section, item: SourceItem)
    requires CleanItem(item) && InsertLines(lines, section, item).Success?
    ensures EntriesIn(InsertLines(lines, section, item).value, section) == EntriesIn(lines, section) + [EntryOf(item)]
       <==> NoStrayFields(lines, section, EntryOf(item))
    ensures forall other :: other != section ==>
              EntriesIn(InsertLines(lines, section, item).value, other) == EntriesIn(lines, other)
  {
    hide TopLevelKey, FirstKey, NextTop, Render, IsBlock, KeyOf, PlainKey, CleanItem, InlineValue, CleanLine, Entries,
      Trim, BodyOf, InsertLines, Fields, MinDash, WithBlock, IndentFor, Items;
    var key, e := KeyOf(section), EntryOf(item);
    if BodyOf(lines, key).Some? {
      InsertIntoSection(lines, section, item);
      var body := BodyOf(lines, key).value;
      if MinDash(body).Some? {
        InsertAppends(body, Render(item, IndentFor(body), section), e);
      } else {
        InsertFirst(body, Render(item, IndentFor(body), section), e);
        NoEntries(body);
        var after := EntriesIn(InsertLines(lines, section, item).value, section);
        assert after == [Then(e, Fields(body))] && EntriesIn(lines, section) + [e] == [e];
        assert after[0] == Then(e, Fields(body));
      }
    } else {
      InsertFresh(lines, section, item);
      OnlyBlock(Render(item, 2, section), e);
    }
  }

  lemma NoEntries(body: seq<string>)
    requires MinDash(body).None?
    ensures Entries(body) == []
  {
    hide MinDash;
    ItemsAre(body);
  }

  lemma OnlyBlock(block: seq<string>, e: Entry)
    requires IsBlock(block, 2, e)
    ensures Entries(block) == [e]
  {
    hide MinDash, Fields, Items, IsBlock, Entries;
    NothingThere();
    InsertFirst([], block, e);
    assert block + [] == block;
    NoFields([]);
  }

  lemma NothingThere()
    ensures MinDash([]) == None && IndentFor([]) == 2
  {
  }

  lemma Rejoin<T>(head: seq<T>, x: T, y: T, body: seq<T>, p: nat, rest: seq<T>)
    requires p <= |body|
    ensures (head + [x] + body + rest)[|head| := y] == (head + [y] + body[..p]) + (body[p..] + rest)
  {
    assert body[..p] + body[p..] == body;
  }

  /** Insert moves no line: the result is the old lines in their order, with the section's header written
      as `key:`, and the new lines in one place among them. */
  lemma InsertKeepsLines(lines: seq<string>, section: Section, item: SourceItem)
    returns (before: seq<string>, added: seq<string>, behind: seq<string>)
    requires CleanItem(item) && InsertLines(lines, section, item).Success?
    ensures InsertLines(lines, section, item) == Success(before + added + behind)
    ensures var i := FirstKey(lines, KeyOf(section));
      if i < |lines|
      then before + behind == lines[i := KeyOf(section) + ":"] && i < |before|
           && added == Render(item, IndentFor(BodyOf(lines, KeyOf(section)).value), section)
      else before == lines && behind == [] && added == Gap(lines) + [KeyOf(section) + ":"] + Render(item, 2, section)
  {
    hide TopLevelKey, FirstKey, NextTop, Render, IsBlock, KeyOf, PlainKey, CleanItem, InlineValue, CleanLine, Entries,
      Trim, BodyOf, RestOf, InsertLines, Fields, MinDash, IndentFor, Items, InsertAt, Gap;
    var key := KeyOf(section);
    if BodyOf(lines, key).Some? {
      InsertIntoSection(lines, section, item);
      SectionSplits(lines, key);
      var i, body, rest := FirstKey(lines, key), BodyOf(lines, key).value, RestOf(lines, key);
      var p := InsertAt(body);
      added := Render(item, IndentFor(body), section);
      before, behind := lines[..i] + [key + ":"] + body[..p], body[p..] + rest;
      Rejoin(lines[..i], lines[i], key + ":", body, p, rest);
      Rebracket(lines[..i] + [key + ":"], body[..p], added, body[p..], rest);
    } else {
      InsertFresh(lines, section, item);
      before, added, behind := lines, Gap(lines) + [key + ":"] + Render(item, 2, section), [];
      assert lines + Gap(lines) + [key + ":"] + Render(item, 2, section) + [] == before + added + behind;
    }
  }

  lemma Rebracket<T>(a: seq<T>, b: seq<T>, m: seq<T>, c: seq<T>, d: seq<T>)
    ensures a + (b + m + c) + d == (a + b) + m + (c + d)
  {
  }

  // ------------------------------------------------------------- remove, on lines

  lemma {:induction false} MatchingIs(entries: seq<Entry>, q: Query, k: nat)
    ensures k in Matching(entries, q) <==> k < |entries| && Matches(entries[k], q)
    decreases |entries|
  {
    hide Matches;
    if entries != [] {
      MatchingIs(entries[..|entries| - 1], q, k);
    }
  }

  /** How many entries a query matches, told without counting. */
  lemma MatchingCounts(entries: seq<Entry>, q: Query)
    ensures |Matching(entries, q)| == 0 <==> forall k :: 0 <= k < |entries| ==> !Matches(entries[k], q)
    ensures |Matching(entries, q)| >= 2 <==>
      exists j, k :: 0 <= j < k < |entries| && Matches(entries[j], q) && Matches(entries[k], q)
    ensures |Matching(entries, q)| == 1 ==>
      var k := Matching(entries, q)[0];
      Matches(entries[k], q) && forall j :: 0 <= j < |entries| && Matches(entries[j], q) ==> j == k
  {
    hide Matches, Matching;
    var m := Matching(entries, q);
    forall k: nat ensures k in m <==> k < |entries| && Matches(entries[k], q) {
      MatchingIs(entries, q, k);
    }
    if |m| >= 2 {
      assert 0 <= m[0] < m[1] < |entries|;
    }
    if j, k :| 0 <= j < k < |entries| && Matches(entries[j], q) && Matches(entries[k], q) {
      TwoMembers(m, j, k);
    }
    forall j | 0 <= j < |entries| && Matches(entries[j], q) && |m| == 1 ensures j == m[0] {
      assert j in m;
    }
  }

  lemma TwoMembers(m: seq<nat>, j: nat, k: nat)
    requires j in m && k in m && j != k
    ensures |m| >= 2
  {
    var a :| 0 <= a < |m| && m[a] == j;
    var b :| 0 <= b < |m| && m[b] == k;
    assert a != b;
  }

  lemma NoTopKeysConcat(a: seq<string>, b: seq<string>)
    ensures NoTopKeys(a + b) <==> NoTopKeys(a) && NoTopKeys(b)
  {
    hide TopLevelKey;
    if NoTopKeys(a + b) {
      assert forall i :: 0 <= i < |a| ==> (a + b)[i] == a[i];
      assert forall i :: 0 <= i < |b| ==> (a + b)[|a| + i] == b[i];
    }
  }

  lemma WithoutItemHasNoTopKeys(body: seq<string>, k: nat)
    requires k < |Items(body).items| && NoTopKeys(body)
    ensures NoTopKeys(WithoutItem(body, k))
  {
    hide TopLevelKey, Items, Flat, NoTopKeys;
    ItemsAre(body);
    var c := Items(body);
    FlatWithout(c.items, k);
    var a, b, x, y := c.pre, Flat(c.items[..k]), c.items[k], Flat(c.items[k + 1..]);
    NoTopKeysConcat(a, b + x + y);
    NoTopKeysConcat(b + x, y);
    NoTopKeysConcat(b, x);
    NoTopKeysConcat(b, y);
    NoTopKeysConcat(a, b + y);
  }

  /** What `remove` does to the lines when exactly one entry matches. */
  lemma RemoveOne(lines: seq<string>, section: Section, q: Query)
    requires RemoveLines(lines, section, q).Success? && RemoveLines(lines, section, q).value.Some?
    ensures BodyOf(lines, KeyOf(section)).Some?
    ensures var key, body := KeyOf(section), BodyOf(lines, KeyOf(section)).value;
      var i, m, after := FirstKey(lines, key), Matching(Entries(body), q), RemoveLines(lines, section, q).value.value;
      && |m| == 1 && m[0] < |Items(body).items|
      && after == lines[..i] + [lines[i]] + WithoutItem(body, m[0]) + RestOf(lines, key)
      && BodyOf(after, key) == Some(WithoutItem(body, m[0]))
    ensures forall other :: other != section ==>
              BodyOf(RemoveLines(lines, section, q).value.value, KeyOf(other)) == BodyOf(lines, KeyOf(other))
  {
    hide TopLevelKey, FirstKey, NextTop, KeyOf, Items, Matching, WithoutItem, BodyOf, RestOf;
    var key, body, rest := KeyOf(section), BodyOf(lines, KeyOf(section)).value, RestOf(lines, KeyOf(section));
    var i := FirstKey(lines, key);
    SectionSplits(lines, key);
    var k := Matching(Entries(body), q)[0];
    WithoutItemHasNoTopKeys(body, k);
    BodyIs(lines[..i], lines[i], WithoutItem(body, k), rest, key);
    forall other | other != section
      ensures BodyOf(RemoveLines(lines, section, q).value.value, KeyOf(other)) == BodyOf(lines, KeyOf(other))
    {
      KeysAreApart(section, other);
      OthersKept(lines[..i], lines[i], lines[i], body, WithoutItem(body, k), rest, key, KeyOf(other));
    }
  }

  /** The three outcomes of `remove`, told on the section's list of entries: an error exactly when two
      entries match, no change exactly when none does, and otherwise the one matching entry goes (unless
      it was the only one and deeper dashes stood before it) and every other section stays as it was. */
  lemma RemoveRefinesDelete(lines: seq<string>, section: Section, q: Query)
    ensures var entries, r := EntriesIn(lines, section), RemoveLines(lines, section, q);
      && (r.Failure? <==> exists j, k :: 0 <= j < k < |entries| && Matches(entries[j], q) && Matches(entries[k], q))
      && (r == Success(None) <==> forall k :: 0 <= k < |entries| ==> !Matches(entries[k], q))
    ensures var entries, r := EntriesIn(lines, section), RemoveLines(lines, section, q);
      r.Success? && r.value.Some? ==>
        exists k :: 0 <= k < |entries| && Matches(entries[k], q)
          && (EntriesIn(r.value.value, section) == Without(entries, k)
              <==> |entries| >= 2 || MinDash(Items(BodyOf(lines, KeyOf(section)).value).pre).None?)
    ensures var r := RemoveLines(lines, section, q);
      r.Success? && r.value.Some? ==>
        forall other :: other != section ==> EntriesIn(r.value.value, other) == EntriesIn(lines, other)
  {
    hide TopLevelKey, FirstKey, NextTop, KeyOf, Items, Matching, WithoutItem, Matches, BodyOf, Entries, MinDash;
    var r := RemoveLines(lines, section, q);
    if BodyOf(lines, KeyOf(section)).Some? {
      var body := BodyOf(lines, KeyOf(section)).value;
      var entries := EntriesIn(lines, section);
      MatchingCounts(Entries(body), q);
      if r.Success? && r.value.Some? {
        RemoveOne(lines, section, q);
        var k := Matching(Entries(body), q)[0];
        RemoveDeletes(body, k);
        EntriesCount(body);
        assert 0 <= k < |entries| && Matches(entries[k], q);
        assert EntriesIn(r.value.value, section) == Entries(WithoutItem(body, k));
      }
    }
  }

  lemma EntriesCount(body: seq<string>)
    ensures |Entries(body)| == |Items(body).items|
  {
    hide Items;
  }

  // --------------------------------------------------------- remove undoes insert

  /** The section is there with a bare header, and is empty or has items and ends in one's content. */
  ghost predicate Undoable(lines: seq<string>, section: Section) {
    var key := KeyOf(section);
    BodyOf(lines, key).Some? && lines[FirstKey(lines, key)] == key + ":"
    && var body := BodyOf(lines, key).value;
       body == [] || (MinDash(body).Some? && !IsQuiet(body[|body| - 1]))
  }

  lemma SameSplit<T>(head: seq<T>, x: T, y: T, a: seq<T>, b: seq<T>, rest: seq<T>)
    ensures head + [x] + a + rest == head + [y] + b + rest <==> x == y && a == b
  {
    if head + [x] + a + rest == head + [y] + b + rest {
      assert (head + [x] + a + rest)[|head|] == x;
      SameSuffix(head + [x] + a, head + [y] + b, rest);
      assert (head + [x] + a)[|head| + 1..] == a;
      assert (head + [y] + b)[|head| + 1..] == b;
    }
  }

  lemma MatchingNew(entries: seq<Entry>, e: Entry, q: Query)
    requires forall k :: 0 <= k < |entries| ==> !Matches(entries[k], q)
    ensures Matching(entries + [e], q) == if Matches(e, q) then [|entries|] else []
  {
    hide Matches;
    MatchingCounts(entries, q);
    assert (entries + [e])[..|entries|] == entries;
  }

  /** What `remove` finds right after an insert into an existing section. */
  lemma RemoveAfterInsert(lines: seq<string>, section: Section, item: SourceItem, q: Query)
    requires CleanItem(item) && InsertLines(lines, section, item).Success? && BodyOf(lines, KeyOf(section)).Some?
    requires forall k :: 0 <= k < |EntriesIn(lines, section)| ==> !Matches(EntriesIn(lines, section)[k], q)
    ensures var key, body := KeyOf(section), BodyOf(lines, KeyOf(section)).value;
      var nb, k := WithBlock(body, Render(item, IndentFor(body), section)), |Items(body).items|;
      && k < |Items(nb).items| == |Entries(nb)|
      && RemoveLines(InsertLines(lines, section, item).value, section, q) ==
           if Matches(Entries(nb)[k], q)
           then Success(Some(lines[..FirstKey(lines, key)] + [key + ":"] + WithoutItem(nb, k) + RestOf(lines, key)))
           else Success(None)
  {
    hide TopLevelKey, FirstKey, NextTop, Render, IsBlock, KeyOf, PlainKey, CleanItem, InlineValue, CleanLine, Entries,
      BodyOf, RestOf, InsertLines, IndentFor, Items, Matches, Matching, WithoutItem, WithBlock;
    var key, e := KeyOf(section), EntryOf(item);
    InsertIntoSection(lines, section, item);
    var body := BodyOf(lines, key).value;
    var block := Render(item, IndentFor(body), section);
    var nb := WithBlock(body, block);
    EntriesCount(body);
    EntriesCount(nb);
    assert EntriesIn(lines, section) == Entries(body);
    NewEntries(body, block, e);
    MatchingNew(Entries(body), Entries(nb)[|Items(body).items|], q);
    HeadOf(lines, section, item);
  }

  /** The undo inside an existing section. */
  lemma UndoInSection(lines: seq<string>, section: Section, item: SourceItem, q: Query)
    requires CleanItem(item) && InsertLines(lines, section, item).Success? && BodyOf(lines, KeyOf(section)).Some?
    requires Matches(EntryOf(item), q)
    requires forall k :: 0 <= k < |EntriesIn(lines, section)| ==> !Matches(EntriesIn(lines, section)[k], q)
    ensures RemoveLines(InsertLines(lines, section, item).value, section, q) == Success(Some(lines)) <==> Undoable(lines, section)
  {
    hide TopLevelKey, FirstKey, NextTop, Render, IsBlock, KeyOf, PlainKey, CleanItem, InlineValue, CleanLine, Entries, EntriesIn,
      BodyOf, RestOf, InsertLines, RemoveLines, MinDash, IndentFor, Items, InsertAt, Matches, IsQuiet, WithoutItem, WithBlock;
    var key := KeyOf(section);
    RemoveAfterInsert(lines, section, item, q);
    InsertIntoSection(lines, section, item);
    SectionSplits(lines, key);
    var i, body, rest := FirstKey(lines, key), BodyOf(lines, key).value, RestOf(lines, key);
    var block := Render(item, IndentFor(body), section);
    var nb, k := WithBlock(body, block), |Items(body).items|;
    InsertAtEnd(body);
    RemoveInserted(body, block, EntryOf(item));
    EntriesCount(body);
    NewEntries(body, block, EntryOf(item));
    SameSplit(lines[..i], key + ":", lines[i], WithoutItem(nb, k), body, rest);
  }

  lemma Parts<T>(head: seq<T>, x: T, body: seq<T>, rest: seq<T>)
    ensures var all := head + [x] + body + rest; all[..|head|] == head && all[|head|] == x
  {
  }

  lemma HeadOf(lines: seq<string>, section: Section, item: SourceItem)
    requires CleanItem(item) && BodyOf(lines, KeyOf(section)).Some? && InsertLines(lines, section, item).Success?
    ensures var i, after := FirstKey(lines, KeyOf(section)), InsertLines(lines, section, item).value;
      i < |lines| && i < |after| && after[..i] == lines[..i] && after[i] == KeyOf(section) + ":"
  {
    hide TopLevelKey, FirstKey, NextTop, Render, IsBlock, KeyOf, CleanItem, BodyOf, RestOf, InsertLines, IndentFor, WithBlock;
    InsertIntoSection(lines, section, item);
    var body := BodyOf(lines, KeyOf(section)).value;
    Parts(lines[..FirstKey(lines, KeyOf(section))], KeyOf(section) + ":",
          WithBlock(body, Render(item, IndentFor(body), section)), RestOf(lines, KeyOf(section)));
  }

  /** After an insert the section has one entry more; an earlier match is impossible only for the new one. */
  lemma NewEntries(body: seq<string>, block: seq<string>, e: Entry)
    requires IsBlock(block, IndentFor(body), e)
    ensures |Entries(WithBlock(body, block))| == |Entries(body)| + 1
    ensures Entries(WithBlock(body, block)) == Entries(body) + [Entries(WithBlock(body, block))[|Entries(body)|]]
    ensures MinDash(body).Some? || body == [] ==> Entries(WithBlock(body, block))[|Entries(body)|] == e
  {
    hide MinDash, Fields, Items, WithBlock, IndentFor, Entries;
    if MinDash(body).Some? {
      InsertAppends(body, block, e);
    } else {
      NoEntries(body);
      InsertFirst(body, block, e);
      if body == [] {
        NoFields([]);
      }
    }
  }

  /** `remove` right after `insert` restores the lines exactly, if and only if the section was there with a
      bare header and was empty or ended in an item's own lines; for any query that picks out the new
      entry and none of the old ones. */
  lemma RemoveUndoesInsert(lines: seq<string>, section: Section, item: SourceItem, q: Query)
    requires CleanItem(item) && InsertLines(lines, section, item).Success?
    requires Matches(EntryOf(item), q)
    requires forall k :: 0 <= k < |EntriesIn(lines, section)| ==> !Matches(EntriesIn(lines, section)[k], q)
    ensures RemoveLines(InsertLines(lines, section, item).value, section, q) == Success(Some(lines)) <==> Undoable(lines, section)
  {
    hide TopLevelKey, FirstKey, NextTop, Render, IsBlock, KeyOf, PlainKey, CleanItem, InlineValue, CleanLine, Entries,
      Trim, BodyOf, RestOf, InsertLines, Fields, MinDash, IndentFor, Items, Gap, Matches, Matching, IsQuiet, WithoutItem;
    if BodyOf(lines, KeyOf(section)).Some? {
      UndoInSection(lines, section, item, q);
    } else {
      InsertFresh(lines, section, item);
      var after := InsertLines(lines, section, item).value;
      var r := RemoveLines(after, section, q);
      if r.Success? && r.value.Some? {
        RemoveOne(after, section, q);
        assert |r.value.value| >= |lines + Gap(lines)| + 1;
      }
    }
  }
}
