/** Owned blocks in shell start-up files: appending them between their markers, excising them again, and what is left
    of the text after both, for any list of blocks with distinct markers. */
module ShellRc {
  import opened Collections
  import opened Substrings
  import opened YamlLines

  // -------------------------------------------------------------------- markers

  const BEGIN := "# >>> BEGIN "
  const TAG := " (added by envctl) "
  const BEGIN_END := TAG + ">>>"
  const END := "# <<< END "
  const END_END := " <<<"

  function Begin(marker: string): string { BEGIN + marker + BEGIN_END }

  function End(marker: string): string { END + marker + END_END }

  predicate CleanMarker(m: string) { '#' !in m && '>' !in m && '\n' !in m }

  lemma MarkerShape(m: string)
    requires CleanMarker(m)
    ensures '\n' !in Begin(m) && Begin(m) != [] && Begin(m)[0] == '#' && '#' !in Begin(m)[1..]
    ensures '\n' !in End(m) && End(m) != [] && End(m)[0] == '#' && '#' !in End(m)[1..]
    ensures |Begin(m)| > 2 && |End(m)| > 2 && Begin(m)[2] == '>' && End(m)[2] == '<'
  {
    Literals();
    assert Begin(m)[1..] == BEGIN[1..] + m + BEGIN_END;
    assert End(m)[1..] == END[1..] + m + END_END;
    assert Begin(m)[2] == BEGIN[2] && End(m)[2] == END[2];
    InParts(BEGIN, m, BEGIN_END);
    InParts(BEGIN[1..], m, BEGIN_END);
    InParts(END, m, END_END);
    InParts(END[1..], m, END_END);
  }

  lemma Literals()
    ensures '\n' !in BEGIN && '\n' !in BEGIN_END && '\n' !in END && '\n' !in END_END
    ensures '#' !in BEGIN[1..] && '#' !in BEGIN_END && '#' !in END[1..] && '#' !in END_END
    ensures BEGIN[0] == '#' == END[0] && BEGIN[2] == '>' && END[2] == '<'
  {
    BeginLiteral();
    EndLiteral();
    TagLiteral();
  }

  lemma BeginLiteral()
    ensures '\n' !in BEGIN && '#' !in BEGIN[1..] && BEGIN[0] == '#' && BEGIN[2] == '>'
  {
    assert BEGIN[1..] == " >>> BEGIN ";
  }

  lemma EndLiteral()
    ensures '\n' !in END && '#' !in END[1..] && END[0] == '#' && END[2] == '<'
    ensures '\n' !in END_END && '#' !in END_END
  {
    assert END[1..] == " <<< END ";
  }

  lemma TagLiteral()
    ensures '\n' !in BEGIN_END && '#' !in BEGIN_END
    ensures |TAG| == 19 && '>' !in TAG && BEGIN_END[19] == '>' && |BEGIN_END| == 22
  {
  }

  lemma InParts(a: string, b: string, c: string)
    ensures forall x :: x in a + b + c <==> x in a || x in b || x in c
  {
  }

  /** Of two lines that each start with their only `#`, one holds the other only at the very front. */
  lemma OnlyAtFront(t: string, p: string)
    requires t != [] && p != [] && p[0] == '#' && '#' !in t[1..] && Has(t, p)
    ensures At(t, p, 0)
  {
    var k: nat :| At(t, p, k);
    assert t[k] == t[k..k + |p|][0];
    assert forall i :: 1 <= i < |t| ==> t[i] == t[1..][i - 1];
    assert k == 0;
  }

  /** No begin line stands inside another block's marker lines, and no end line inside its own begin line. */
  lemma MarkersApart(m: string, n: string)
    requires CleanMarker(m) && CleanMarker(n)
    ensures Has(Begin(n), Begin(m)) <==> m == n
    ensures !Has(End(n), Begin(m))
    ensures !Has(Begin(n), End(m))
  {
    hide Begin, End;
    MarkerShape(m);
    MarkerShape(n);
    if Has(Begin(n), Begin(m)) {
      OnlyAtFront(Begin(n), Begin(m));
      BeginPrefix(m, n);
    }
    if m == n {
      WholeOccurs(Begin(m));
    }
    if Has(End(n), Begin(m)) {
      OnlyAtFront(End(n), Begin(m));
      ThirdChar(End(n), Begin(m));
    }
    if Has(Begin(n), End(m)) {
      OnlyAtFront(Begin(n), End(m));
      ThirdChar(Begin(n), End(m));
    }
  }

  lemma ThirdChar(t: string, p: string)
    requires At(t, p, 0) && |p| > 2
    ensures t[2] == p[2]
  {
    assert t[0..|p|][2] == t[2];
  }

  lemma BeginPrefix(m: string, n: string)
    requires CleanMarker(m) && CleanMarker(n) && At(Begin(n), Begin(m), 0)
    ensures m == n
  {
    var s, t := m + BEGIN_END, n + BEGIN_END;
    var b := |BEGIN|;
    assert Begin(m) == BEGIN + s && Begin(n) == BEGIN + t;
    assert |s| <= |t| && t[..|s|] == s by {
      assert Begin(n)[0..|Begin(m)|][b..] == s;
      assert Begin(n)[0..|Begin(m)|][b..] == t[..|s|];
    }
    MarkEnds(m);
    MarkEnds(n);
    var i, j := Find(s, '>'), Find(t, '>');
    assert s[i] == t[i];
    assert i == j;
    assert m == s[..|m|] && n == t[..|n|];
  }

  lemma MarkEnds(m: string)
    requires '>' !in m
    ensures Find(m + BEGIN_END, '>') == |m| + 19
  {
    hide Find;
    TagLiteral();
    var s := m + BEGIN_END;
    assert s[..|m| + 19] == m + TAG;
    assert forall j :: 0 <= j < |m| + 19 ==> s[j] == s[..|m| + 19][j] && s[j] in m + TAG;
    assert s[|m| + 19] == BEGIN_END[19];
    FindIs(s, '>', |m| + 19);
  }

  // --------------------------------------------------------------- one block, one text

  datatype Block = Block(file: string, marker: string, content: string)

  function BlockText(b: Block): string {
    ['\n'] + (Begin(b.marker) + ['\n'] + (TrimEnd(b.content) + ['\n'] + (End(b.marker) + ['\n'])))
  }

  /** Append the block unless its begin line is there already. */
  function ApplyText(b: Block, text: string): string {
    if Search(text, Begin(b.marker)).Some? then text else text + BlockText(b)
  }

  datatype Outcome = NotThere | Unterminated | Multiple | Excised

  /** Cut out the one owned span, or say why the text is left untouched. */
  function RevertText(b: Block, text: string): (string, Outcome) {
    var begin, end := Begin(b.marker), End(b.marker);
    match Search(text, begin)
    case None => (text, NotThere)
    case Some(bi) =>
      match Search(text[bi..], end)
      case None => (text, Unterminated)
      case Some(n) =>
        var after := bi + n + |end|;
        var rest := if after < |text| && text[after] == '\n' then text[after + 1..] else text[after..];
        if Search(rest, begin).Some? then (text, Multiple) else (text[..bi] + rest, Excised)
  }

  /** No begin line of `b` stands in the text. */
  ghost predicate Without(b: Block, text: string) { !Has(text, Begin(b.marker)) }

  /** The content holds no begin line of any of these blocks, and not the block's own end line. */
  ghost predicate CleanContent(b: Block, blocks: seq<Block>) {
    && !Has(TrimEnd(b.content), End(b.marker))
    && forall o :: o in blocks ==> !Has(TrimEnd(b.content), Begin(o.marker))
  }

  ghost predicate CleanBlocks(blocks: seq<Block>) {
    && (forall b :: b in blocks ==> CleanMarker(b.marker) && CleanContent(b, blocks))
    && forall i, j :: 0 <= i < j < |blocks| ==> blocks[i].marker != blocks[j].marker
  }

  /** Where a begin line shows in a text with another block appended. */
  lemma InBlockText(o: Block, b: Block, t: string)
    requires CleanMarker(o.marker) && CleanMarker(b.marker) && !Has(TrimEnd(b.content), Begin(o.marker))
    ensures Has(t + BlockText(b), Begin(o.marker)) <==> Has(t, Begin(o.marker)) || o.marker == b.marker
  {
    hide At, Has, Search, TrimEnd, Begin, End, CleanMarker;
    var p := Begin(o.marker);
    MarkerShape(o.marker);
    MarkersApart(o.marker, b.marker);
    var last := End(b.marker) + ['\n'];
    var body := TrimEnd(b.content) + ['\n'] + last;
    var tail := Begin(b.marker) + ['\n'] + body;
    EmptyHasNothing(p);
    assert last == End(b.marker) + ['\n'] + [];
    LineFeedSplits(End(b.marker), [], p);
    LineFeedSplits(TrimEnd(b.content), last, p);
    LineFeedSplits(Begin(b.marker), body, p);
    LineFeedSplits(t, tail, p);
    assert t + BlockText(b) == t + ['\n'] + tail;
  }

  // ------------------------------------------------- a list of blocks, one text

  function ApplyAllText(blocks: seq<Block>, text: string): string {
    if blocks == [] then text else ApplyAllText(blocks[1..], ApplyText(blocks[0], text))
  }

  function RevertAllText(blocks: seq<Block>, text: string): string {
    if blocks == [] then text else RevertAllText(blocks[1..], RevertText(blocks[0], text).0)
  }

  function BlocksText(blocks: seq<Block>): string {
    if blocks == [] then [] else BlockText(blocks[0]) + BlocksText(blocks[1..])
  }

  function LineFeeds(n: nat): string { if n == 0 then [] else ['\n'] + LineFeeds(n - 1) }

  ghost predicate NoneIn(blocks: seq<Block>, text: string) {
    forall b :: b in blocks ==> Without(b, text)
  }

  lemma CleanTail(blocks: seq<Block>)
    requires CleanBlocks(blocks) && blocks != []
    ensures CleanBlocks(blocks[1..])
    ensures forall b :: b in blocks[1..] ==> b.marker != blocks[0].marker
  {
    forall b | b in blocks[1..] ensures b.marker != blocks[0].marker {
      var i :| 0 <= i < |blocks[1..]| && blocks[1..][i] == b;
      assert blocks[i + 1] == b;
    }
    assert forall b :: b in blocks[1..] ==> b in blocks;
  }

  lemma {:induction false} AppliedText(blocks: seq<Block>, text: string)
    requires CleanBlocks(blocks) && NoneIn(blocks, text)
    ensures ApplyAllText(blocks, text) == text + BlocksText(blocks)
  {
    hide BlockText, Has, Search, CleanMarker, TrimEnd, Begin;
    if blocks != [] {
      var b, rest := blocks[0], blocks[1..];
      assert b in blocks && Without(b, text);
      CleanTail(blocks);
      forall o | o in rest ensures Without(o, text + BlockText(b)) {
        assert o in blocks && Without(o, text);
        InBlockText(o, b, text);
      }
      AppliedText(rest, text + BlockText(b));
      assert text + BlockText(b) + BlocksText(rest) == text + BlocksText(blocks);
    }
  }

  /** A later block's text holds no earlier begin line. */
  lemma {:induction false} NotInBlocksText(b: Block, blocks: seq<Block>, all: seq<Block>)
    requires CleanMarker(b.marker) && b in all && forall o :: o in blocks ==> o in all && o.marker != b.marker
    requires forall o :: o in all ==> CleanMarker(o.marker) && CleanContent(o, all)
    ensures !Has(BlocksText(blocks), Begin(b.marker))
  {
    hide BlockText, Has, Search, CleanMarker, TrimEnd, Begin;
    MarkerShape(b.marker);
    EmptyHasNothing(Begin(b.marker));
    if blocks != [] {
      NotInBlocksText(b, blocks[1..], all);
      assert blocks[0] in blocks;
      BlockBefore(blocks[0], b, BlocksText(blocks[1..]));
    }
  }

  lemma BlockBefore(o: Block, b: Block, rest: string)
    requires CleanMarker(o.marker) && CleanMarker(b.marker) && o.marker != b.marker
    requires !Has(TrimEnd(o.content), Begin(b.marker)) && !Has(rest, Begin(b.marker))
    ensures !Has(BlockText(o) + rest, Begin(b.marker))
  {
    hide At, Has, Search, TrimEnd, Begin, End, CleanMarker;
    var p := Begin(b.marker);
    MarkerShape(b.marker);
    MarkersApart(b.marker, o.marker);
    EmptyHasNothing(p);
    var last := End(o.marker) + ['\n'] + rest;
    var body := TrimEnd(o.content) + ['\n'] + last;
    var tail := Begin(o.marker) + ['\n'] + body;
    LineFeedSplits(End(o.marker), rest, p);
    LineFeedSplits(TrimEnd(o.content), last, p);
    LineFeedSplits(Begin(o.marker), body, p);
    LineFeedSplits([], tail, p);
    assert BlockText(o) + rest == [] + ['\n'] + tail;
  }

  /** Reverting the first of several appended blocks leaves the text before it, its line feed, and the rest. */
  lemma RevertFirst(b: Block, text: string, rest: string)
    requires CleanMarker(b.marker) && CleanContent(b, [b]) && Without(b, text) && !Has(rest, Begin(b.marker))
    ensures RevertText(b, text + BlockText(b) + rest) == (text + ['\n'] + rest, Excised)
  {
    hide At, Has, Search, TrimEnd, Begin, End, CleanMarker;
    var begin, end := Begin(b.marker), End(b.marker);
    MarkerShape(b.marker);
    MarkersApart(b.marker, b.marker);
    assert b in [b];
    var last := end + ['\n'] + rest;
    var body := TrimEnd(b.content) + ['\n'] + last;
    var tail := begin + ['\n'] + body;
    var t := text + ['\n'] + tail;
    assert text + BlockText(b) + rest == t;
    var bi := |text| + 1;
    FoundAtStart(begin, body, begin);
    LineFeedSplits(text, tail, begin);
    assert Search(t, begin) == Some(bi);
    assert t[bi..] == tail;
    FoundAtStart(end, rest, end);
    LineFeedSplits(TrimEnd(b.content), last, end);
    LineFeedSplits(begin, body, end);
    var n := |begin| + 1 + |TrimEnd(b.content)| + 1;
    assert Search(tail, end) == Some(n);
    var after := bi + n + |end|;
    assert t == text + ['\n'] + begin + ['\n'] + TrimEnd(b.content) + ['\n'] + end + ['\n'] + rest;
    assert t[after] == '\n' && t[after + 1..] == rest;
    assert t[..bi] == text + ['\n'];
    assert Search(rest, begin).None?;
  }

  lemma FoundAtStart(p: string, rest: string, q: string)
    requires p == q && p != []
    ensures Has(p + ['\n'] + rest, q) && Search(p + ['\n'] + rest, q) == Some(0)
    ensures Has(p, q) && Search(p, q) == Some(0)
  {
    WholeOccurs(p);
    SearchIs(p, q, 0);
    var t := p + ['\n'] + rest;
    assert t[0..|q|] == q;
    assert At(t, q, 0);
    SearchIs(t, q, 0);
  }

  lemma {:induction false} RevertedText(blocks: seq<Block>, text: string)
    requires CleanBlocks(blocks) && NoneIn(blocks, text)
    ensures RevertAllText(blocks, text + BlocksText(blocks)) == text + LineFeeds(|blocks|)
  {
    hide BlockText, Has, Search, CleanMarker, TrimEnd, Begin, RevertText;
    if blocks == [] {
      assert text + [] == text;
    } else {
      var b, rest := blocks[0], blocks[1..];
      assert b in blocks && CleanContent(b, blocks) && Without(b, text);
      CleanTail(blocks);
      NotInBlocksText(b, rest, blocks);
      RevertFirst(b, text, BlocksText(rest));
      assert text + BlocksText(blocks) == text + BlockText(b) + BlocksText(rest);
      forall o | o in rest ensures Without(o, text + ['\n']) {
        assert o in blocks && Without(o, text);
        StillWithout(o, text);
      }
      RevertedText(rest, text + ['\n']);
      assert text + ['\n'] + LineFeeds(|rest|) == text + LineFeeds(|blocks|);
    }
  }

  lemma StillWithout(b: Block, text: string)
    requires CleanMarker(b.marker) && Without(b, text)
    ensures Without(b, text + ['\n'])
  {
    hide At, Has, Search, Begin, CleanMarker;
    MarkerShape(b.marker);
    EmptyHasNothing(Begin(b.marker));
    LineFeedSplits(text, [], Begin(b.marker));
    assert text + ['\n'] + [] == text + ['\n'];
  }

  /** Apply all, then revert all: the original text plus one line feed per block. */
  lemma ApplyThenRevert(blocks: seq<Block>, text: string)
    requires CleanBlocks(blocks) && NoneIn(blocks, text)
    ensures RevertAllText(blocks, ApplyAllText(blocks, text)) == text + LineFeeds(|blocks|)
  {
    AppliedText(blocks, text);
    RevertedText(blocks, text);
  }

  /** Whatever the text, a revert either leaves it as it is, or cuts exactly one span that starts with the
      begin line and ends with the end line (and its line feed), with no second begin line after it. */
  lemma RevertCutsOneSpan(b: Block, text: string) returns (before: string, span: string, nl: string, rest: string)
    requires CleanMarker(b.marker)
    ensures var (after, outcome) := RevertText(b, text);
      if outcome == Excised
      then
        && text == before + span + nl + rest && after == before + rest
        && StartsWith(span, Begin(b.marker)) && EndsWith(span, End(b.marker))
        && (nl == [] || nl == ['\n']) && !Has(rest, Begin(b.marker))
      else after == text
    ensures RevertText(b, text).1 == NotThere <==> !Has(text, Begin(b.marker))
    ensures RevertText(b, text).1 == Unterminated ==> !Has(text[Search(text, Begin(b.marker)).value..], End(b.marker))
  {
    hide Begin, End, Search, CleanMarker, Has;
    before, span, nl, rest := [], [], [], [];
    if RevertText(b, text).1 == Excised {
      var bi := Search(text, Begin(b.marker)).value;
      var n := Search(text[bi..], End(b.marker)).value;
      SpanStarts(b, text, bi, n);
      SpanIs(text, Begin(b.marker), End(b.marker), bi, n);
      var after := bi + n + |End(b.marker)|;
      before, span := text[..bi], text[bi..after];
      nl := if after < |text| && text[after] == '\n' then ['\n'] else [];
      rest := text[after + |nl|..];
    }
  }

  lemma SpanIs(text: string, begin: string, end: string, bi: nat, n: nat)
    requires At(text, begin, bi) && At(text[bi..], end, n) && |begin| <= n + |end|
    ensures bi + n + |end| <= |text|
    ensures StartsWith(text[bi..bi + n + |end|], begin) && EndsWith(text[bi..bi + n + |end|], end)
  {
    var span := text[bi..bi + n + |end|];
    assert span[..|begin|] == text[bi..bi + |begin|];
    assert span[n..] == text[bi..][n..n + |end|];
  }

  ghost predicate StartsWith(t: string, p: string) { |p| <= |t| && t[..|p|] == p }

  ghost predicate EndsWith(t: string, p: string) { |p| <= |t| && t[|t| - |p|..] == p }

  /** The end line found after a begin line does not end inside the begin line. */
  lemma SpanStarts(b: Block, text: string, bi: nat, n: nat)
    requires CleanMarker(b.marker) && At(text, Begin(b.marker), bi) && At(text[bi..], End(b.marker), n)
    ensures |Begin(b.marker)| <= n + |End(b.marker)|
  {
    hide Begin, End, CleanMarker;
    MarkersApart(b.marker, b.marker);
    var begin, end := Begin(b.marker), End(b.marker);
    if n + |end| <= |begin| {
      InsideMatch(text, begin, end, bi, n);
    }
  }

  lemma InsideMatch(text: string, p: string, q: string, bi: nat, n: nat)
    requires At(text, p, bi) && At(text[bi..], q, n) && n + |q| <= |p|
    ensures At(p, q, n)
  {
    forall i | 0 <= i < |q| ensures p[n + i] == q[i] {
      assert text[bi..bi + |p|][n + i] == text[bi + n + i] == text[bi..][n + i];
      assert text[bi..][n..n + |q|][i] == text[bi..][n + i];
    }
    assert p[n..n + |q|] == q;
  }

  // --------------------------------------------------------------- once is enough

  lemma {:induction false} HasGrows(t: string, more: string, p: string)
    requires Has(t, p)
    ensures Has(t + more, p)
  {
    var k: nat :| At(t, p, k);
    assert (t + more)[k..k + |p|] == t[k..k + |p|];
    assert At(t + more, p, k);
  }

  lemma ApplyTextShows(b: Block, text: string)
    ensures Has(ApplyText(b, text), Begin(b.marker))
    ensures exists more :: ApplyText(b, text) == text + more
  {
    hide Begin, End, Search;
    if Search(text, Begin(b.marker)).None? {
      var p, t := Begin(b.marker), text + BlockText(b);
      assert t[|text| + 1..|text| + 1 + |p|] == p;
      assert At(t, p, |text| + 1);
    } else {
      assert ApplyText(b, text) == text + [];
    }
  }

  lemma {:induction false} ApplyAllShows(blocks: seq<Block>, text: string, b: Block)
    requires b in blocks || Has(text, Begin(b.marker))
    ensures Has(ApplyAllText(blocks, text), Begin(b.marker))
  {
    hide Has, Begin, ApplyText;
    if blocks != [] {
      ApplyTextShows(blocks[0], text);
      var more :| ApplyText(blocks[0], text) == text + more;
      if Has(text, Begin(b.marker)) {
        HasGrows(text, more, Begin(b.marker));
      }
      ApplyAllShows(blocks[1..], ApplyText(blocks[0], text), b);
    }
  }

  lemma {:induction false} AllThere(blocks: seq<Block>, text: string)
    requires forall b :: b in blocks ==> Has(text, Begin(b.marker))
    ensures ApplyAllText(blocks, text) == text
  {
    hide Has, Begin;
    if blocks != [] {
      assert blocks[0] in blocks;
      AllThere(blocks[1..], text);
    }
  }

  /** Applying twice is applying once, for any blocks and any text. */
  lemma ApplyTwice(blocks: seq<Block>, text: string)
    ensures ApplyAllText(blocks, ApplyAllText(blocks, text)) == ApplyAllText(blocks, text)
  {
    hide Has, Begin, ApplyAllText;
    forall b | b in blocks ensures Has(ApplyAllText(blocks, text), Begin(b.marker)) {
      ApplyAllShows(blocks, text, b);
    }
    AllThere(blocks, ApplyAllText(blocks, text));
  }

  // ---------------------------------------------------------------- many files

  datatype Wiring = Wiring(pathEntries: seq<string>, shellRc: seq<Block>)

  const RC_FILE := "~/.bashrc"
  const PATH_MARKER := "envctl PATH"

  const PATH_CASE := "case \":$PATH:\" in *\":"
  const PATH_THEN := ":\"*) ;; *) export PATH=\""
  const PATH_ELSE := ":$PATH\";; esac\n"

  function PathLines(dirs: seq<string>): string {
    if dirs == [] then []
    else PATH_CASE + dirs[0] + PATH_THEN + dirs[0] + PATH_ELSE + PathLines(dirs[1..])
  }

  /** The blocks of a wiring in the order they are applied and reverted: the engine's own PATH block first. */
  function BlocksOf(w: Wiring): seq<Block> {
    (if w.pathEntries == [] then [] else [Block(RC_FILE, PATH_MARKER, PathLines(w.pathEntries))]) + w.shellRc
  }

  function Read(disk: map<string, string>, file: string): string {
    if file in disk then disk[file] else []
  }

  function ApplyDisk(blocks: seq<Block>, disk: map<string, string>): map<string, string> {
    if blocks == [] then disk
    else
      var b := blocks[0];
      ApplyDisk(blocks[1..], disk[b.file := ApplyText(b, Read(disk, b.file))])
  }

  function RevertDisk(blocks: seq<Block>, disk: map<string, string>): map<string, string> {
    if blocks == [] then disk
    else
      var b := blocks[0];
      RevertDisk(blocks[1..], if b.file in disk then disk[b.file := RevertText(b, disk[b.file]).0] else disk)
  }

  function OnFile(blocks: seq<Block>, file: string): (r: seq<Block>)
    ensures forall b :: b in r <==> b in blocks && b.file == file
  {
    if blocks == [] then []
    else (if blocks[0].file == file then [blocks[0]] else []) + OnFile(blocks[1..], file)
  }

  lemma {:induction false} ApplyDiskAt(blocks: seq<Block>, disk: map<string, string>, file: string)
    ensures Read(ApplyDisk(blocks, disk), file) == ApplyAllText(OnFile(blocks, file), Read(disk, file))
    ensures file in ApplyDisk(blocks, disk) <==> file in disk || OnFile(blocks, file) != []
  {
    hide ApplyText;
    if blocks != [] {
      var b := blocks[0];
      ApplyDiskAt(blocks[1..], disk[b.file := ApplyText(b, Read(disk, b.file))], file);
      if b.file == file {
        assert OnFile(blocks, file)[1..] == OnFile(blocks[1..], file);
      } else {
        assert OnFile(blocks, file) == OnFile(blocks[1..], file);
      }
    }
  }

  lemma {:induction false} RevertDiskAt(blocks: seq<Block>, disk: map<string, string>, file: string)
    ensures file in RevertDisk(blocks, disk) <==> file in disk
    ensures file in disk ==> RevertDisk(blocks, disk)[file] == RevertAllText(OnFile(blocks, file), disk[file])
  {
    hide RevertText;
    if blocks != [] {
      var b := blocks[0];
      RevertDiskAt(blocks[1..], if b.file in disk then disk[b.file := RevertText(b, disk[b.file]).0] else disk, file);
      if b.file == file {
        assert OnFile(blocks, file)[1..] == OnFile(blocks[1..], file);
      } else {
        assert OnFile(blocks, file) == OnFile(blocks[1..], file);
      }
    }
  }

  /** Applying every block of a wiring and then reverting every block gives each file back with one more
      line feed per block on it, when on each file the markers are clean and distinct, the contents are
      free of them, and the file held none of their begin lines. */
  lemma ApplyThenRevertDisk(blocks: seq<Block>, disk: map<string, string>, file: string)
    requires CleanBlocks(OnFile(blocks, file)) && NoneIn(OnFile(blocks, file), Read(disk, file))
    ensures Read(RevertDisk(blocks, ApplyDisk(blocks, disk)), file)
         == Read(disk, file) + LineFeeds(|OnFile(blocks, file)|)
  {
    hide CleanBlocks, NoneIn, ApplyAllText, RevertAllText;
    ApplyDiskAt(blocks, disk, file);
    RevertDiskAt(blocks, ApplyDisk(blocks, disk), file);
    if file in ApplyDisk(blocks, disk) {
      ApplyThenRevert(OnFile(blocks, file), Read(disk, file));
    } else {
      NothingHere(file, disk);
    }
  }

  lemma NothingHere(file: string, disk: map<string, string>)
    ensures file !in disk ==> Read(disk, file) + LineFeeds(0) == []
  {
  }

  /** On the whole disk applying twice is applying once. */
  lemma ApplyDiskTwice(blocks: seq<Block>, disk: map<string, string>)
    ensures ApplyDisk(blocks, ApplyDisk(blocks, disk)) == ApplyDisk(blocks, disk)
  {
    hide ApplyAllText, ApplyDisk;
    var once := ApplyDisk(blocks, disk);
    var twice := ApplyDisk(blocks, once);
    forall file ensures (file in twice <==> file in once) && Read(twice, file) == Read(once, file) {
      ApplyDiskAt(blocks, disk, file);
      ApplyDiskAt(blocks, once, file);
      ApplyTwice(OnFile(blocks, file), Read(disk, file));
    }
    assert forall file :: file in once ==> twice[file] == Read(twice, file) && once[file] == Read(once, file);
  }

  lemma PathWordsHaveNoHash()
    ensures '#' !in PATH_CASE && '#' !in PATH_THEN && '#' !in PATH_ELSE
  {
  }

  /** The engine's own PATH block is clean whenever no path entry holds a `#`. */
  lemma {:induction false} PathLinesHaveNoHash(dirs: seq<string>)
    requires forall d :: d in dirs ==> '#' !in d
    ensures '#' !in PathLines(dirs)
  {
    if dirs != [] {
      var d := dirs[0];
      assert d in dirs;
      PathLinesHaveNoHash(dirs[1..]);
      PathWordsHaveNoHash();
      assert PathLines(dirs) == PATH_CASE + d + PATH_THEN + d + PATH_ELSE + PathLines(dirs[1..]);
    }
  }

  lemma PathBlockIsClean(dirs: seq<string>, marker: string)
    requires CleanMarker(marker) && forall d :: d in dirs ==> '#' !in d
    ensures CleanMarker(PATH_MARKER)
    ensures !Has(TrimEnd(PathLines(dirs)), Begin(marker)) && !Has(TrimEnd(PathLines(dirs)), End(marker))
  {
    hide Begin, End, PathLines;
    MarkerShape(marker);
    PathLinesHaveNoHash(dirs);
    TrimEndIsPrefix(PathLines(dirs));
    NoHashNoMarker(TrimEnd(PathLines(dirs)), Begin(marker));
    NoHashNoMarker(TrimEnd(PathLines(dirs)), End(marker));
  }

  lemma NoHashNoMarker(t: string, p: string)
    requires '#' !in t && p != [] && p[0] == '#'
    ensures !Has(t, p)
  {
    forall k: nat ensures !At(t, p, k) {
      if k + |p| <= |t| {
        assert t[k..k + |p|][0] == t[k] && t[k] in t;
      }
    }
  }

  // ------------------------------------------------- two owners of one marker

  /** The second of two blocks on one file is added, and the first one is not mistaken for it by its revert,
      exactly when their markers differ. */
  lemma SharedMarkerExactly(a: Block, b: Block, text: string)
    requires CleanMarker(a.marker) && CleanMarker(b.marker) && Without(a, text) && Without(b, text)
    requires CleanContent(a, [a, b])
    ensures var both := ApplyText(a, text);
      && both == text + BlockText(a)
      && (ApplyText(b, both) == both + BlockText(b) <==> a.marker != b.marker)
      && (RevertText(b, both).1 == NotThere <==> a.marker != b.marker)
      && (a.marker == b.marker ==> ApplyText(b, both) == both && RevertText(b, both) == (text + ['\n'], Excised))
  {
    hide Search, Has, Begin, End, CleanMarker, TrimEnd;
    assert a in [a, b] && b in [a, b];
    InBlockText(b, a, text);
    assert |BlockText(b)| > 0;
    if a.marker == b.marker {
      EmptyHasNothing(Begin(a.marker)) by { MarkerShape(a.marker); }
      assert CleanContent(a, [a]);
      RevertFirst(a, text, []);
      assert text + BlockText(a) + [] == text + BlockText(a);
      assert text + ['\n'] + [] == text + ['\n'];
      SameMarkerReverts(a, b, text + BlockText(a));
    }
  }

  lemma SameMarkerReverts(a: Block, b: Block, text: string)
    requires a.marker == b.marker
    ensures RevertText(a, text) == RevertText(b, text)
  {
    hide Search, Begin, End;
  }

  /** Two components with PATH entries share the engine's own marker: the second one's entries never get into
      the file, and a reset of the second takes the first one's out. */
  lemma PathBlocksCollide(v: Wiring, w: Wiring, text: string)
    requires v.pathEntries != [] && w.pathEntries != [] && !Has(text, Begin(PATH_MARKER))
    requires forall d :: d in v.pathEntries ==> '#' !in d
    ensures var a, b := BlocksOf(v)[0], BlocksOf(w)[0]; var once := ApplyText(a, text);
      && once == text + BlockText(a) && ApplyText(b, once) == once
      && RevertText(b, once) == (text + ['\n'], Excised)
  {
    hide Has, Begin, End, PathLines, TrimEnd, CleanMarker;
    var a, b := BlocksOf(v)[0], BlocksOf(w)[0];
    PathMarkerIsClean();
    PathBlockIsClean(v.pathEntries, PATH_MARKER);
    SharedMarkerExactly(a, b, text);
  }

  lemma PathMarkerIsClean()
    ensures CleanMarker(PATH_MARKER)
  {
  }

  // ------------------------------------------------------------------- the engine

  /** One note or failure of a revert: which block it was about and what happened. */
  datatype Note = Note(marker: string, file: string, outcome: Outcome)

  function OutcomeOn(b: Block, disk: map<string, string>): Outcome {
    if b.file in disk then RevertText(b, disk[b.file]).1 else NotThere
  }

  /** One note for every block that was found, in order, each judged on the disk its turn finds. */
  function NotesOf(blocks: seq<Block>, disk: map<string, string>): seq<Note> {
    if blocks == [] then []
    else
      var b := blocks[0];
      (if OutcomeOn(b, disk) == NotThere then [] else [Note(b.marker, b.file, OutcomeOn(b, disk))])
      + NotesOf(blocks[1..], RevertDisk([b], disk))
  }

  class Files {
    var disk: map<string, string>

    /** Append one block to its file, creating the file, unless its begin line is there. */
    method ApplyShellRc(b: Block)
      modifies this
      ensures disk == ApplyDisk([b], old(disk))
    {
      hide Begin, BlockText, Search;
      var existing := Read(disk, b.file);
      if Search(existing, Begin(b.marker)).Some? {
        AlreadyThere(b, disk);
      } else {
        disk := disk[b.file := existing + BlockText(b)];
      }
      assert [b][1..] == [];
    }

    method RevertShellRc(b: Block) returns (outcome: Outcome)
      modifies this
      ensures disk == RevertDisk([b], old(disk))
      ensures outcome == OutcomeOn(b, old(disk))
    {
      hide RevertText;
      assert [b][1..] == [];
      if b.file !in disk {
        return NotThere;
      }
      var (text, what) := RevertText(b, disk[b.file]);
      disk := disk[b.file := text];
      outcome := what;
    }

    method Apply(w: Wiring)
      modifies this
      ensures disk == ApplyDisk(BlocksOf(w), old(disk))
    {
      hide ApplyDisk, BlocksOf;
      var blocks := BlocksOf(w);
      for i := 0 to |blocks|
        invariant ApplyDisk(blocks, old(disk)) == ApplyDisk(blocks[i..], disk)
      {
        ApplyOneMore(blocks, i, disk);
        ApplyShellRc(blocks[i]);
      }
      ApplyNothing(blocks[|blocks|..], disk);
    }

    /** Reverts in the same order, and notes what became of every block that was found. */
    method Revert(w: Wiring) returns (notes: seq<Note>)
      modifies this
      ensures disk == RevertDisk(BlocksOf(w), old(disk))
      ensures notes == NotesOf(BlocksOf(w), old(disk))
    {
      hide RevertText, RevertDisk, BlocksOf, OutcomeOn, NotesOf;
      var blocks := BlocksOf(w);
      notes := [];
      for i := 0 to |blocks|
        invariant RevertDisk(blocks, old(disk)) == RevertDisk(blocks[i..], disk)
        invariant NotesOf(blocks, old(disk)) == notes + NotesOf(blocks[i..], disk)
      {
        RevertOneMore(blocks, i, disk);
        NoteOneMore(blocks, i, disk);
        var outcome := RevertShellRc(blocks[i]);
        if outcome != NotThere {
          notes := notes + [Note(blocks[i].marker, blocks[i].file, outcome)];
        }
      }
      RevertNothing(blocks[|blocks|..], disk);
      assert notes + [] == notes;
    }
  }

  lemma ApplyNothing(blocks: seq<Block>, disk: map<string, string>)
    ensures blocks == [] ==> ApplyDisk(blocks, disk) == disk
  {
  }

  lemma ApplyOneMore(blocks: seq<Block>, i: nat, disk: map<string, string>)
    requires i < |blocks|
    ensures ApplyDisk(blocks[i..], disk) == ApplyDisk(blocks[i + 1..], ApplyDisk([blocks[i]], disk))
  {
    hide ApplyText;
    assert blocks[i..][1..] == blocks[i + 1..] && [blocks[i]][1..] == [];
  }

  lemma RevertNothing(blocks: seq<Block>, disk: map<string, string>)
    ensures blocks == [] ==> RevertDisk(blocks, disk) == disk && NotesOf(blocks, disk) == []
  {
  }

  lemma NoteOneMore(blocks: seq<Block>, i: nat, disk: map<string, string>)
    requires i < |blocks|
    ensures NotesOf(blocks[i..], disk) ==
      (if OutcomeOn(blocks[i], disk) == NotThere then [] else [Note(blocks[i].marker, blocks[i].file, OutcomeOn(blocks[i], disk))])
      + NotesOf(blocks[i + 1..], RevertDisk([blocks[i]], disk))
  {
    hide OutcomeOn, RevertDisk;
    assert blocks[i..][0] == blocks[i] && blocks[i..][1..] == blocks[i + 1..];
  }

  lemma RevertOneMore(blocks: seq<Block>, i: nat, disk: map<string, string>)
    requires i < |blocks|
    ensures RevertDisk(blocks[i..], disk) == RevertDisk(blocks[i + 1..], RevertDisk([blocks[i]], disk))
  {
    hide RevertText;
    assert blocks[i..][1..] == blocks[i + 1..] && [blocks[i]][1..] == [];
  }

  lemma AlreadyThere(b: Block, disk: map<string, string>)
    requires Search(Read(disk, b.file), Begin(b.marker)).Some?
    ensures ApplyDisk([b], disk) == disk
  {
    hide Begin, Search;
    assert [b][1..] == [];
    if b.file !in disk {
      BeginIsThere(b);
    }
  }

  lemma BeginIsThere(b: Block)
    ensures Search([], Begin(b.marker)).None?
  {
    Literals();
    EmptyHasNothing(Begin(b.marker));
  }
}
