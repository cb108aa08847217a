/** Texts and their lines, as `str::lines` and `join("\n")` relate them: what the line editors rest on when they
    read and write a file. */
module TextLines {
  import opened Collections
  import opened YamlLines

  predicate CleanLine(l: string) { '\n' !in l && (l != [] ==> l[|l| - 1] != '\r') }

  function ChopReturn(s: string): string {
    if s != [] && s[|s| - 1] == '\r' then s[..|s| - 1] else s
  }

  /** `str::lines`: cut at line feeds, with one carriage return before each dropped. */
  function Lines(text: string): seq<string>
    decreases |text|
  {
    if text == [] then []
    else
      var i := Find(text, '\n');
      if i == |text| then [text] else [ChopReturn(text[..i])] + Lines(text[i + 1..])
  }

  function Joined(lines: seq<string>): string {
    if lines == [] then "" else if |lines| == 1 then lines[0] else lines[0] + "\n" + Joined(lines[1..])
  }

  predicate EndsLine(text: string) { text != [] && text[|text| - 1] == '\n' }

  function Ending(yes: bool): string { if yes then "\n" else "" }

  function Join(lines: seq<string>, original: string): string {
    Joined(lines) + Ending(original == [] || EndsLine(original))
  }

  ghost predicate CleanLines(lines: seq<string>) {
    forall i :: 0 <= i < |lines| ==> CleanLine(lines[i])
  }

  lemma LineReads(l: string, rest: string)
    requires CleanLine(l)
    ensures Lines(l + "\n" + rest) == [l] + Lines(rest)
  {
    hide Find;
    var text := l + "\n" + rest;
    assert forall j :: 0 <= j < |l| ==> text[j] == l[j];
    FindIs(text, '\n', |l|);
    assert text[..|l|] == l && text[|l| + 1..] == rest;
  }

  lemma LastReads(l: string)
    requires CleanLine(l) && l != []
    ensures Lines(l) == [l]
  {
    hide Find;
    FindIs(l, '\n', |l|);
  }

  lemma {:induction false} JoinedReads(lines: seq<string>, ended: bool)
    requires lines != [] && CleanLines(lines) && (ended || lines[|lines| - 1] != [])
    ensures Lines(Joined(lines) + Ending(ended)) == lines
    decreases |lines|
  {
    hide CleanLine, Lines;
    var l := lines[0];
    if |lines| > 1 {
      var rest := Joined(lines[1..]) + Ending(ended);
      assert Joined(lines) + Ending(ended) == l + "\n" + rest;
      LineReads(l, rest);
      JoinedReads(lines[1..], ended);
    } else if ended {
      assert Joined(lines) + Ending(ended) == l + "\n" + "";
      LineReads(l, "");
      EmptyHasNoLines();
    } else {
      assert Joined(lines) + Ending(ended) == l;
      LastReads(l);
    }
  }

  /** No carriage return stands before a line feed. */
  ghost predicate NoCrLf(s: string) {
    forall i :: 0 <= i < |s| - 1 ==> !(s[i] == '\r' && s[i + 1] == '\n')
  }

  /** A carriage return at the end of `a` meets a line feed at the start of `b`. */
  predicate Meet(a: string, b: string) {
    a != [] && b != [] && a[|a| - 1] == '\r' && b[0] == '\n'
  }

  lemma NoCrLfConcat(a: string, b: string)
    ensures NoCrLf(a + b) <==> NoCrLf(a) && NoCrLf(b) && !Meet(a, b)
  {
    var s := a + b;
    if NoCrLf(s) {
      forall i | 0 <= i < |a| - 1 ensures !(a[i] == '\r' && a[i + 1] == '\n') {
        assert !(s[i] == '\r' && s[i + 1] == '\n');
      }
      forall i | 0 <= i < |b| - 1 ensures !(b[i] == '\r' && b[i + 1] == '\n') {
        assert !(s[|a| + i] == '\r' && s[|a| + i + 1] == '\n');
      }
      if a != [] && b != [] {
        assert !(s[|a| - 1] == '\r' && s[|a| - 1 + 1] == '\n');
      }
    }
  }

  predicate EndsReturn(s: string) { s != [] && s[|s| - 1] == '\r' }

  /** The first line feed cuts a text in two. */
  lemma FirstBreak(text: string)
    ensures var i := Find(text, '\n');
      if i < |text| then
        && text == text[..i] + "\n" + text[i + 1..] && '\n' !in text[..i]
        && (NoCrLf(text) <==> !EndsReturn(text[..i]) && NoCrLf(text[i + 1..]))
      else '\n' !in text && NoCrLf(text)
  {
    hide Find, NoCrLf;
    var i := Find(text, '\n');
    assert forall j :: 0 <= j < i ==> text[..i][j] == text[j];
    NoFeedIsPlain(text[..i]);
    if i < |text| {
      var rest := text[i + 1..];
      CutAt(text, i);
      assert [text[i]] == "\n";
      assert text == text[..i] + ("\n" + rest);
      FeedIsPlain();
      NoCrLfConcat(text[..i], "\n" + rest);
      NoCrLfConcat("\n", rest);
    } else {
      assert text[..i] == text;
    }
  }

  lemma NoFeedIsPlain(s: string)
    requires '\n' !in s
    ensures NoCrLf(s)
  {
  }

  lemma FeedIsPlain()
    ensures NoCrLf("\n")
  {
  }

  lemma JoinStep(p: string, rest: string, joined: string)
    requires |joined| <= |rest|
    ensures |ChopReturn(p) + "\n" + joined| <= |p + "\n" + rest|
    ensures ChopReturn(p) + "\n" + joined == p + "\n" + rest <==> !EndsReturn(p) && joined == rest
  {
    var q := ChopReturn(p);
    assert q + "\n" + joined == q + ("\n" + joined) && p + "\n" + rest == p + ("\n" + rest);
    assert ("\n" + joined)[1..] == joined && ("\n" + rest)[1..] == rest;
    SameBefore(q, p, "\n" + joined, "\n" + rest);
  }

  lemma MoreLines(p: string, rest: string)
    requires rest != [] && Lines(rest) != []
    ensures EndsLine(p + "\n" + rest) <==> EndsLine(rest)
    ensures Joined([p] + Lines(rest)) == p + "\n" + Joined(Lines(rest))
  {
    hide Lines;
    assert ([p] + Lines(rest))[1..] == Lines(rest);
  }

  /** Splitting a text into lines and joining them gives the text back, if and only if it has no CRLF line
      end; otherwise carriage returns are lost. */
  lemma {:induction false} LinesJoinExactly(text: string)
    requires text != []
    ensures Lines(text) != []
    ensures var joined := Joined(Lines(text)) + Ending(EndsLine(text));
      |joined| <= |text| && (joined == text <==> NoCrLf(text))
    decreases |text|
  {
    hide Find, NoCrLf, CleanLine, ChopReturn, Joined, EndsReturn;
    FirstBreak(text);
    var i := Find(text, '\n');
    if i < |text| {
      var p, rest := text[..i], text[i + 1..];
      var q := ChopReturn(p);
      if rest == [] {
        EmptyHasNoLines();
        assert Lines(text) == [q];
        OneLineJoined(q);
        JoinStep(p, "", "");
        EmptyIsPlain();
        assert q + "\n" + "" == q + "\n";
      } else {
        LinesJoinExactly(rest);
        var joined := Joined(Lines(rest)) + Ending(EndsLine(rest));
        MoreLines(p, rest);
        MoreLines(q, rest);
        JoinStep(p, rest, joined);
        assert Joined(Lines(text)) + Ending(EndsLine(text)) == q + "\n" + joined;
      }
    } else {
      OneLineJoined(text);
      assert text[|text| - 1] != '\n';
    }
  }

  lemma OneLineJoined(l: string)
    ensures Joined([l]) == l
  {
  }

  lemma EmptyIsPlain()
    ensures NoCrLf("")
  {
  }

  /** Texts that are no longer, part for part, are equal only part for part. */
  lemma SameBefore(a: string, b: string, x: string, y: string)
    requires |a| <= |b| && |x| <= |y|
    ensures a + x == b + y <==> a == b && x == y
  {
    if a + x == b + y {
      assert a == (a + x)[..|a|] && b == (b + y)[..|b|];
      assert x == (a + x)[|a|..] && y == (b + y)[|b|..];
    }
  }

  /** A CRLF line end becomes a line feed when the lines are joined again. */
  lemma CrLfIsLost()
    ensures Join(Lines("a\r\n"), "a\r\n") == "a\n"
  {
    LineWithReturn("a", "");
    EmptyHasNoLines();
    assert "a" + "\r\n" + "" == "a\r\n";
  }

  lemma LineWithReturn(l: string, rest: string)
    requires '\n' !in l
    ensures Lines(l + "\r\n" + rest) == [l] + Lines(rest)
  {
    hide Find;
    var text := l + "\r\n" + rest;
    assert forall j :: 0 <= j < |l| ==> text[j] == l[j];
    FindIs(text, '\n', |l| + 1);
    assert text[..|l| + 1] == l + "\r" && text[|l| + 2..] == rest;
    assert (l + "\r")[..|l|] == l;
  }

  predicate Triple(s: string, i: int) {
    0 <= i < |s| - 2 && s[i] == '\r' && s[i + 1] == '\r' && s[i + 2] == '\n'
  }

  /** No two carriage returns stand before a line feed, and none at the end. */
  ghost predicate ReturnsPaired(s: string) {
    !EndsReturn(s) && forall i :: !Triple(s, i)
  }

  predicate TwoReturns(p: string) { |p| >= 2 && p[|p| - 2] == '\r' && p[|p| - 1] == '\r' }

  lemma ChoppedIsClean(p: string)
    requires '\n' !in p
    ensures CleanLine(ChopReturn(p)) <==> !TwoReturns(p)
  {
  }

  lemma TripleParts(p: string, rest: string, i: int)
    requires '\n' !in p
    ensures Triple(p + "\n" + rest, i) <==> (i == |p| - 2 && TwoReturns(p)) || Triple(rest, i - |p| - 1)
  {
    var s := p + "\n" + rest;
    assert forall k :: 0 <= k < |p| ==> s[k] == p[k];
    assert forall k :: 0 <= k < |rest| ==> s[|p| + 1 + k] == rest[k];
    assert s[|p|] == '\n';
    if 0 <= i < |s| - 2 {
      if i + 2 < |p| {
        assert s[i + 2] == p[i + 2];
      } else if i > |p| {
        var k := i - |p| - 1;
        assert s[i] == rest[k] && s[i + 1] == rest[k + 1] && s[i + 2] == rest[k + 2];
      }
    }
  }

  lemma PairedParts(p: string, rest: string)
    requires '\n' !in p
    ensures ReturnsPaired(p + "\n" + rest) <==> CleanLine(ChopReturn(p)) && (rest != [] ==> ReturnsPaired(rest))
  {
    hide CleanLine, ChopReturn, Triple, TwoReturns;
    var s := p + "\n" + rest;
    ChoppedIsClean(p);
    forall i ensures Triple(s, i) <==> (i == |p| - 2 && TwoReturns(p)) || Triple(rest, i - |p| - 1) {
      TripleParts(p, rest, i);
    }
    assert s[|s| - 1] == if rest == [] then '\n' else rest[|rest| - 1];
    if TwoReturns(p) {
      assert Triple(s, |p| - 2);
    } else {
      forall i ensures Triple(rest, i) <==> Triple(s, i + |p| + 1) {
        TripleParts(p, rest, i + |p| + 1);
        TripleNeedsPlace(rest, i);
      }
      EmptyHasNoTriple();
    }
  }

  lemma EmptyHasNoTriple()
    ensures forall i :: !Triple("", i)
  {
  }

  lemma TripleNeedsPlace(s: string, i: int)
    ensures Triple(s, i) ==> i >= 0
  {
  }

  /** The lines read back as they are, exactly for texts whose carriage returns are paired. */
  lemma {:induction false} LinesCleanExactly(text: string)
    ensures CleanLines(Lines(text)) <==> ReturnsPaired(text)
    decreases |text|
  {
    hide Find, NoCrLf, CleanLine, ChopReturn;
    EmptyHasNoLines();
    if text != [] {
      FirstBreak(text);
      var i := Find(text, '\n');
      if i < |text| {
        var p, rest := text[..i], text[i + 1..];
        PairedParts(p, rest);
        OneIsClean(ChopReturn(p));
        CleanConcat([ChopReturn(p)], Lines(rest));
        LinesCleanExactly(rest);
      } else {
        OneIsClean(text);
        NoFeedIsPaired(text);
      }
    }
  }

  lemma NoFeedIsPaired(s: string)
    requires '\n' !in s
    ensures ReturnsPaired(s) <==> CleanLine(s)
  {
  }

  /** A text that does not end in a line feed ends in a line that is not empty. */
  lemma {:induction false} LastLineIsThere(text: string)
    requires text != []
    ensures Lines(text) != []
    ensures !EndsLine(text) ==> Lines(text)[|Lines(text)| - 1] != []
    decreases |text|
  {
    hide Find;
    var i := Find(text, '\n');
    if i < |text| && text[i + 1..] != [] {
      LastLineIsThere(text[i + 1..]);
      assert EndsLine(text) <==> EndsLine(text[i + 1..]);
    }
  }

  lemma EmptyHasNoLines()
    ensures Lines("") == []
  {
  }

  lemma {:induction false} JoinedEnds(lines: seq<string>)
    requires lines != [] && CleanLines(lines) && lines[|lines| - 1] != []
    ensures Joined(lines) != [] && !EndsLine(Joined(lines))
    decreases |lines|
  {
    if |lines| > 1 {
      JoinedEnds(lines[1..]);
    } else {
      assert CleanLine(lines[0]);
    }
  }

  lemma {:induction false} JoinedBlank(lines: seq<string>)
    requires lines != [] && lines[|lines| - 1] == []
    ensures Joined(lines) == [] || EndsLine(Joined(lines))
    decreases |lines|
  {
    if |lines| > 1 {
      JoinedBlank(lines[1..]);
    }
  }

  lemma CleanConcat(a: seq<string>, b: seq<string>)
    ensures CleanLines(a + b) <==> CleanLines(a) && CleanLines(b)
  {
    hide CleanLine;
    if CleanLines(a + b) {
      assert forall i :: 0 <= i < |a| ==> (a + b)[i] == a[i];
      assert forall i :: 0 <= i < |b| ==> (a + b)[|a| + i] == b[i];
    }
  }

  lemma OneIsClean(l: string)
    ensures CleanLines([l]) <==> CleanLine(l)
    ensures CleanLines([])
  {
    hide CleanLine;
    assert [l][0] == l;
  }
}
