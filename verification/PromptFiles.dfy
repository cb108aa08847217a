/** Exactly which command files keep their text when their prompt file is parsed and rendered as one again: what
    carriage returns and stray fence lines do to the others. */
module PromptFiles {
  import opened Collections
  import opened Substrings
  import opened TextLines
  import opened YamlLines
  import opened CommandFile

  const DEFAULT := INVOKABLE + " true"

  // ------------------------------------------------------- counting carriage returns

  function Returns(s: string): nat {
    if s == [] then 0 else (if s[0] == '\r' then 1 else 0) + Returns(s[1..])
  }

  lemma {:induction false} ReturnsConcat(a: string, b: string)
    ensures Returns(a + b) == Returns(a) + Returns(b)
    decreases |a|
  {
    if a == [] {
      assert a + b == b;
    } else {
      assert (a + b)[1..] == a[1..] + b;
      ReturnsConcat(a[1..], b);
    }
  }

  lemma {:induction false} NoReturns(s: string)
    requires '\r' !in s
    ensures Returns(s) == 0
  {
    if s != [] { NoReturns(s[1..]); }
  }

  lemma {:induction false} NormalReturns(s: string)
    ensures Returns(Normal(s)) <= Returns(s)
    ensures !NoCrLf(s) ==> Returns(Normal(s)) < Returns(s)
    decreases |s|
  {
    hide NoCrLf;
    if s == [] {
      EmptyIsPlain();
    } else if |s| >= 2 && s[0] == '\r' && s[1] == '\n' {
      NormalReturns(s[2..]);
      ReturnsConcat(['\n'], Normal(s[2..]));
      assert s[1..][0] == '\n' && s[1..][1..] == s[2..];
    } else {
      NormalReturns(s[1..]);
      assert s == [s[0]] + s[1..];
      OneIsPlain(s[0]);
      NoCrLfConcat([s[0]], s[1..]);
      ReturnsConcat([s[0]], Normal(s[1..]));
    }
  }

  lemma InputHasNone()
    ensures Returns(INPUT) == 0 && |ARGUMENTS| == 10
  {
    hide Returns;
    ArgumentLiterals();
    NoReturns(INPUT);
  }

  lemma {:induction false} SubstituteReturns(s: string)
    ensures Returns(Substitute(s)) <= Returns(s)
    decreases |s|
  {
    hide Returns;
    InputHasNone();
    if s == [] {
      assert Substitute(s) == s;
    } else if |s| >= 10 && s[..10] == ARGUMENTS {
      SubstituteReturns(s[10..]);
      ReturnsConcat(INPUT, Substitute(s[10..]));
      assert s == s[..10] + s[10..];
      ReturnsConcat(s[..10], s[10..]);
    } else {
      SubstituteReturns(s[1..]);
      ReturnsConcat([s[0]], Substitute(s[1..]));
      assert s == [s[0]] + s[1..];
      ReturnsConcat([s[0]], s[1..]);
    }
  }

  function LineReturns(lines: seq<string>): nat {
    if lines == [] then 0 else LineReturns(lines[..|lines| - 1]) + Returns(lines[|lines| - 1])
  }

  lemma {:induction false} LineReturnsConcat(a: seq<string>, b: seq<string>)
    ensures LineReturns(a + b) == LineReturns(a) + LineReturns(b)
    decreases |b|
  {
    if b == [] {
      assert a + b == a;
    } else {
      var n := |b| - 1;
      assert (a + b)[..|a + b| - 1] == a + b[..n];
      LineReturnsConcat(a, b[..n]);
    }
  }

  lemma ChoppedReturns(p: string)
    ensures Returns(ChopReturn(p)) <= Returns(p)
  {
    hide Returns;
    if p != [] {
      var q := p[..|p| - 1];
      assert p == q + [p[|p| - 1]];
      ReturnsConcat(q, [p[|p| - 1]]);
    }
  }

  lemma {:induction false} LinesReturns(text: string)
    ensures LineReturns(Lines(text)) <= Returns(text)
    decreases |text|
  {
    hide Find, Returns, ChopReturn, LineReturns;
    if text == [] {
      NoLineReturns();
    } else {
      var i := Find(text, '\n');
      if i < |text| {
        var p, rest := text[..i], text[i + 1..];
        LinesReturns(rest);
        LineReturnsConcat([ChopReturn(p)], Lines(rest));
        OneLineReturns(ChopReturn(p));
        ChoppedReturns(p);
        assert text == p + ([text[i]] + rest);
        ReturnsConcat(p, [text[i]] + rest);
        ReturnsConcat([text[i]], rest);
      } else {
        OneLineReturns(text);
      }
    }
  }

  lemma NoLineReturns()
    ensures LineReturns([]) == 0
  {
  }

  lemma OneLineReturns(l: string)
    ensures LineReturns([l]) == Returns(l)
  {
    assert [l][..0] == [];
  }

  lemma {:induction false} NonBlankReturns(lines: seq<string>)
    ensures LineReturns(NonBlank(lines)) <= LineReturns(lines)
  {
    hide Trim;
    if lines != [] {
      var n := |lines| - 1;
      NonBlankReturns(lines[..n]);
      LineReturnsConcat(NonBlank(lines[..n]), [lines[n]]);
      OneLineReturns(lines[n]);
      assert NonBlank(lines[..n]) + [] == NonBlank(lines[..n]);
    }
  }

  // --------------------------------------------------------- lines as a text

  function LinesText(lines: seq<string>): string {
    if lines == [] then "" else lines[0] + "\n" + LinesText(lines[1..])
  }

  lemma {:induction false} LinesTextConcat(a: seq<string>, b: seq<string>)
    ensures LinesText(a + b) == LinesText(a) + LinesText(b)
    decreases |a|
  {
    if a == [] {
      assert a + b == b;
    } else {
      assert (a + b)[1..] == a[1..] + b;
      LinesTextConcat(a[1..], b);
    }
  }

  lemma {:induction false} LinesTextIs(lines: seq<string>)
    requires lines != []
    ensures LinesText(lines) == Joined(lines) + "\n"
  {
    if |lines| == 1 {
      assert lines[1..] == [];
    } else {
      LinesTextIs(lines[1..]);
    }
  }

  lemma {:induction false} LinesTextReturns(lines: seq<string>)
    ensures Returns(LinesText(lines)) == LineReturns(lines)
    decreases |lines|
  {
    if lines != [] {
      LinesTextReturns(lines[1..]);
      assert lines == [lines[0]] + lines[1..];
      LineReturnsConcat([lines[0]], lines[1..]);
      OneLineReturns(lines[0]);
      ReturnsConcat(lines[0] + "\n", LinesText(lines[1..]));
      ReturnsConcat(lines[0], "\n");
      NoReturns("\n");
    }
  }

  lemma {:induction false} LinesTextPlain(lines: seq<string>)
    requires forall l :: l in lines ==> '\n' !in l
    ensures NoCrLf(LinesText(lines)) <==> CleanLines(lines)
    ensures lines != [] ==> LinesText(lines) != [] && LinesText(lines)[|LinesText(lines)| - 1] == '\n'
    decreases |lines|
  {
    hide NoCrLf, CleanLine;
    if lines == [] {
      EmptyIsPlain();
    } else {
      LinesTextPlain(lines[1..]);
      assert lines[0] in lines;
      NoCrLfConcat(lines[0] + "\n", LinesText(lines[1..]));
      LinePlain(lines[0]);
      assert lines == [lines[0]] + lines[1..];
      CleanConcat([lines[0]], lines[1..]);
      OneIsClean(lines[0]);
    }
  }

  lemma LinePlain(l: string)
    requires '\n' !in l
    ensures NoCrLf(l + "\n") <==> CleanLine(l)
  {
    hide NoCrLf;
    NoCrLfConcat(l, "\n");
    NoFeedIsPlain(l);
    FeedIsPlain();
  }

  // ------------------------------------------------------------- the preamble's lines

  lemma {:induction false} LinesHaveNoFeed(text: string)
    ensures forall l :: l in Lines(text) ==> '\n' !in l
    decreases |text|
  {
    hide Find;
    if text != [] {
      var i := Find(text, '\n');
      assert forall j :: 0 <= j < i ==> text[..i][j] == text[j];
      if i < |text| { LinesHaveNoFeed(text[i + 1..]); }
    }
  }

  lemma {:induction false} NonBlankIsPart(lines: seq<string>, l: string)
    requires l in NonBlank(lines)
    ensures l in lines && Trim(l) != ""
  {
    hide Trim;
    var n := |lines| - 1;
    if l in NonBlank(lines[..n]) { NonBlankIsPart(lines[..n], l); }
  }

  lemma PreambleLines(frontmatter: Option<string>)
    ensures Preamble(frontmatter) != [] && SomeInvokable(Preamble(frontmatter))
    ensures forall l :: l in Preamble(frontmatter) ==> '\n' !in l && Trim(l) != ""
  {
    hide Trim, Lines, NonBlank, Invokable;
    DefaultIsALine();
    var kept := if frontmatter.Some? then NonBlank(Lines(frontmatter.value)) else [];
    forall l | l in kept ensures '\n' !in l && Trim(l) != "" {
      NonBlankIsPart(Lines(frontmatter.value), l);
      LinesHaveNoFeed(frontmatter.value);
    }
    LastInvokable(kept, DEFAULT);
  }

  lemma DefaultIsALine()
    ensures Invokable(DEFAULT) && CleanLine(DEFAULT) && '\n' !in DEFAULT && Trim(DEFAULT) != "" && DEFAULT != FENCE
    ensures DEFAULT[0] == 'i'
  {
    hide Invokable, Trim;
    InvokableLine();
    DefaultLine();
  }

  // ------------------------------------------------------- what is read back

  /** Lines the parser takes for front matter, one by one: not blank, clean, no fence. */
  ghost predicate Readable(lines: seq<string>) {
    CleanLines(lines) && FENCE !in lines && forall l :: l in lines ==> Trim(l) != ""
  }

  lemma ReadableText(lines: seq<string>)
    requires Readable(lines)
    ensures Whole(LinesText(lines)) && Fence(LinesText(lines)) == None
    ensures Lines(TrimLineFeeds(LinesText(lines))) == lines
  {
    hide Fence, TrimLineFeeds, Joined, Lines, Trim, CleanLine;
    if lines == [] {
      EmptyHasNoFence();
      EmptyHasNoLines();
      NothingToTrim();
    } else {
      LinesTextIs(lines);
      FenceInLines(lines);
      TrimOfEmpty();
      assert lines[|lines| - 1] in lines;
      JoinedEnds(lines);
      TrimAddsBack(Joined(lines));
      JoinedReads(lines, false);
      assert Joined(lines) + "" == Joined(lines);
    }
  }

  lemma NothingToTrim()
    ensures TrimLineFeeds("") == ""
  {
  }

  lemma {:induction false} NonBlankAll(lines: seq<string>)
    requires forall l :: l in lines ==> Trim(l) != ""
    ensures NonBlank(lines) == lines
  {
    hide Trim;
    if lines != [] {
      var n := |lines| - 1;
      NonBlankAll(lines[..n]);
      assert lines[n] in lines && lines == lines[..n] + [lines[n]];
    }
  }

  ghost function WithDefault(lines: seq<string>): seq<string> {
    if SomeInvokable(lines) then lines else lines + [DEFAULT]
  }

  /** The text made of these lines and this rest, parsed and rendered again. */
  lemma ReadAgain(lines: seq<string>, rest: string)
    requires Readable(lines)
    ensures var t := OPEN + (LinesText(lines) + (OPEN + rest));
      && ParseNormal(t).Success?
      && PromptText(ParseNormal(t).value) == OPEN + (LinesText(WithDefault(lines)) + (OPEN + Substitute(rest)))
  {
    hide Fence, TrimLineFeeds, ParseNormal, Joined, Lines, Trim, CleanLine, Invokable, Substitute;
    ReadableText(lines);
    ReadsBack(LinesText(lines), rest);
    NonBlankAll(lines);
    LinesTextIs(WithDefault(lines));
  }

  // ------------------------------------------------------- when it is stable

  /** Parsing and rendering the prompt file again gives the same text. */
  ghost predicate Stable(p: Parsed) {
    var out := PromptText(p);
    Parse(out).Success? && PromptText(Parse(out).value) == out
  }

  /** What stands behind line `j` of the preamble in the prompt file. */
  function Behind(pre: seq<string>, j: nat, body: string): string
    requires j < |pre|
  {
    LinesText(pre[j + 1..]) + (OPEN + Substitute(body))
  }

  /** The first fence among the lines comes after an `invokable:` line, with no placeholder behind it. */
  ghost predicate HarmlessFence(pre: seq<string>, j: nat, body: string)
    requires j < |pre|
  {
    pre[j] == FENCE && FENCE !in pre[..j] && SomeInvokable(pre[..j]) && !Has(Behind(pre, j, body), ARGUMENTS)
  }

  /** No carriage return meets a line feed in the prompt file, and a fence among its front-matter lines, if there
      is one, does no harm. */
  ghost predicate Settled(p: Parsed) {
    var pre := Preamble(p.frontmatter);
    && CleanLines(pre) && NoCrLf(p.body)
    && (FENCE in pre ==> exists j :: 0 <= j < |pre| && HarmlessFence(pre, j, p.body))
  }

  lemma PromptTextIs(p: Parsed)
    ensures PromptText(p) == OPEN + (LinesText(Preamble(p.frontmatter)) + (OPEN + Substitute(p.body)))
  {
    hide Substitute;
    PreambleLines(p.frontmatter);
    LinesTextIs(Preamble(p.frontmatter));
  }

  lemma {:induction false} SubstitutePlainBack(s: string)
    requires !NoCrLf(s)
    ensures !NoCrLf(Substitute(s))
    decreases |s|
  {
    hide NoCrLf;
    ArgumentLiterals();
    if s == [] {
      EmptyIsPlain();
    } else if |s| >= 10 && s[..10] == ARGUMENTS {
      assert s == s[..10] + s[10..];
      NoCrLfConcat(s[..10], s[10..]);
      ArgumentsArePlain();
      SubstitutePlainBack(s[10..]);
      NoCrLfConcat(INPUT, Substitute(s[10..]));
    } else {
      assert s == [s[0]] + s[1..];
      NoCrLfConcat([s[0]], s[1..]);
      OneIsPlain(s[0]);
      NoCrLfConcat([s[0]], Substitute(s[1..]));
      if !NoCrLf(s[1..]) {
        SubstitutePlainBack(s[1..]);
      } else {
        FeedStays(s[1..]);
      }
    }
  }

  lemma ArgumentsArePlain()
    ensures NoCrLf(ARGUMENTS) && forall s :: !Meet(ARGUMENTS, s)
  {
    assert ARGUMENTS[|ARGUMENTS| - 1] == 'S';
  }

  lemma FeedStays(s: string)
    requires s != [] && s[0] == '\n'
    ensures Substitute(s) != [] && Substitute(s)[0] == '\n'
  {
    assert ARGUMENTS[0] == '$';
    if |s| >= 10 { assert s[..10][0] == s[0]; }
  }

  /** Where the prompt file holds a carriage return before a line feed. */
  lemma PromptIsPlainExactly(p: Parsed)
    ensures NoCrLf(PromptText(p)) <==> CleanLines(Preamble(p.frontmatter)) && NoCrLf(p.body)
  {
    hide NoCrLf, Substitute, CleanLines, Trim;
    var pre, body := Preamble(p.frontmatter), Substitute(p.body);
    PromptTextIs(p);
    PreambleLines(p.frontmatter);
    LinesTextPlain(pre);
    OpenIsPlain();
    NoCrLfConcat(OPEN, LinesText(pre) + (OPEN + body));
    NoCrLfConcat(LinesText(pre), OPEN + body);
    NoCrLfConcat(OPEN, body);
    if NoCrLf(p.body) { SubstituteIsPlain(p.body); } else { SubstitutePlainBack(p.body); }
  }

  // ---- with a carriage return before a line feed

  lemma PreambleReturns(frontmatter: Option<string>)
    ensures LineReturns(Preamble(frontmatter)) <= if frontmatter.Some? then Returns(frontmatter.value) else 0
  {
    hide Lines, NonBlank, Invokable;
    var kept := if frontmatter.Some? then NonBlank(Lines(frontmatter.value)) else [];
    if frontmatter.Some? {
      LinesReturns(frontmatter.value);
      NonBlankReturns(Lines(frontmatter.value));
    }
    LineReturnsConcat(kept, [DEFAULT]);
    OneLineReturns(DEFAULT);
    DefaultHasNone();
  }

  lemma DefaultHasNone()
    ensures Returns(DEFAULT) == 0
  {
    DefaultLine();
    assert forall i :: 0 <= i < |DEFAULT| ==> DEFAULT[i] != '\r';
    NoReturns(DEFAULT);
  }

  lemma OpenHasNone()
    ensures Returns(OPEN) == 0 && Returns(FENCE) == 0
  {
    NoReturns(OPEN);
    NoReturns(FENCE);
  }

  lemma PromptReturns(p: Parsed)
    ensures Returns(PromptText(p)) <= (if p.frontmatter.Some? then Returns(p.frontmatter.value) else 0) + Returns(p.body)
  {
    hide Substitute;
    var pre, body := Preamble(p.frontmatter), Substitute(p.body);
    PromptTextIs(p);
    OpenHasNone();
    ReturnsConcat(OPEN, LinesText(pre) + (OPEN + body));
    ReturnsConcat(LinesText(pre), OPEN + body);
    ReturnsConcat(OPEN, body);
    LinesTextReturns(pre);
    PreambleReturns(p.frontmatter);
    SubstituteReturns(p.body);
  }

  lemma ParsedReturns(t: string)
    requires ParseNormal(t).Success?
    ensures var p := ParseNormal(t).value;
      (if p.frontmatter.Some? then Returns(p.frontmatter.value) else 0) + Returns(p.body) <= Returns(t)
  {
    hide Fence, TrimLineFeeds, ParseNormal;
    if ParseNormal(t).value.frontmatter.Some? {
      var region, tail := Found(t);
      ReturnsConcat(OPEN, region + (FENCE + tail));
      ReturnsConcat(region, FENCE + tail);
      ReturnsConcat(FENCE, tail);
      TrimmedShape(region);
      var fm := TrimLineFeeds(region);
      assert region == fm + region[|fm|..];
      ReturnsConcat(fm, region[|fm|..]);
      if tail != [] {
        assert tail == [tail[0]] + tail[1..];
        ReturnsConcat([tail[0]], tail[1..]);
      }
    } else {
      PlainBody(t);
    }
  }

  lemma CrLfIsUnstable(p: Parsed)
    requires !NoCrLf(PromptText(p))
    ensures !Stable(p)
  {
    hide NoCrLf, Normal, ParseNormal, PromptText;
    var out := PromptText(p);
    NormalReturns(out);
    if Parse(out).Success? {
      ParsedReturns(Normal(out));
      PromptReturns(Parse(out).value);
    }
  }

  // ---- without one

  lemma FenceText()
    ensures LinesText([FENCE]) == OPEN
  {
    assert [FENCE][1..] == [];
    OpenIsPlain();
    assert LinesText([FENCE]) == FENCE + "\n" + "";
  }

  lemma CutAtFence(pre: seq<string>, j: nat, body: string)
    requires j < |pre| && pre[j] == FENCE
    ensures LinesText(pre) + (OPEN + Substitute(body)) == LinesText(pre[..j]) + (OPEN + Behind(pre, j, body))
  {
    hide Substitute;
    var a, b := pre[..j], pre[j + 1..];
    assert pre == a + ([FENCE] + b);
    LinesTextConcat(a, [FENCE] + b);
    LinesTextConcat([FENCE], b);
    FenceText();
  }

  /** Two texts that go on differently after the same start. */
  lemma DifferAt(a: string, x: string, y: string)
    requires x != [] && y != [] && x[0] != y[0]
    ensures a + x != a + y
  {
    assert (a + x)[|a|] == x[0] && (a + y)[|a|] == y[0];
  }

  lemma SameBehind(a: string, x: string, y: string)
    ensures a + x == a + y <==> x == y
  {
    assert (a + x)[|a|..] == x && (a + y)[|a|..] == y;
  }

  lemma SubstituteIsSame(s: string)
    ensures Substitute(s) == s <==> !Has(s, ARGUMENTS)
  {
    hide Substitute, Has;
    NoneLeft(s);
    if !Has(s, ARGUMENTS) { NothingToSubstitute(s); }
  }

  /** Read back up to a fence and rendered again, the text is the same exactly when the lines before the fence
      have an `invokable:` line and no placeholder stands behind it. */
  lemma SameAgain(lines: seq<string>, rest: string)
    ensures OPEN + (LinesText(WithDefault(lines)) + (OPEN + Substitute(rest))) == OPEN + (LinesText(lines) + (OPEN + rest))
       <==> SomeInvokable(lines) && !Has(rest, ARGUMENTS)
  {
    hide Substitute, Has, LinesText, SomeInvokable;
    var again := LinesText(WithDefault(lines)) + (OPEN + Substitute(rest));
    SameBehind(OPEN, again, LinesText(lines) + (OPEN + rest));
    if SomeInvokable(lines) {
      SubstituteIsSame(rest);
      SameBehind(LinesText(lines), OPEN + Substitute(rest), OPEN + rest);
      SameBehind(OPEN, Substitute(rest), rest);
    } else {
      LinesTextConcat(lines, [DEFAULT]);
      DefaultText();
      var x := LinesText([DEFAULT]) + (OPEN + Substitute(rest));
      assert again == LinesText(lines) + x;
      DifferAt(LinesText(lines), x, OPEN + rest);
    }
  }

  lemma FencedIsStable(p: Parsed, j: nat)
    requires NoCrLf(PromptText(p)) && j < |Preamble(p.frontmatter)|
    requires var pre := Preamble(p.frontmatter); CleanLines(pre) && pre[j] == FENCE && FENCE !in pre[..j]
    ensures Stable(p) <==> HarmlessFence(Preamble(p.frontmatter), j, p.body)
  {
    hide NoCrLf, Normal, ParseNormal, Substitute, Has, Trim, CleanLine, SomeInvokable, Behind, LinesText, WithDefault, Preamble,
      PromptText;
    var pre := Preamble(p.frontmatter);
    var a, rest, out := pre[..j], Behind(pre, j, p.body), PromptText(p);
    PreambleLines(p.frontmatter);
    PromptTextIs(p);
    NormalKeeps(out);
    CutAtFence(pre, j, p.body);
    PartIsReadable(pre, j);
    ReadAgain(a, rest);
    SameAgain(a, rest);
  }

  lemma PartIsReadable(pre: seq<string>, j: nat)
    requires j <= |pre| && CleanLines(pre) && FENCE !in pre[..j] && forall l :: l in pre ==> Trim(l) != ""
    ensures Readable(pre[..j])
  {
    hide Trim, CleanLine;
    assert forall i :: 0 <= i < j ==> pre[..j][i] == pre[i];
  }

  lemma DefaultText()
    ensures LinesText([DEFAULT]) != [] && LinesText([DEFAULT])[0] == 'i' && OPEN[0] == '-'
  {
    DefaultIsALine();
    assert LinesText([DEFAULT]) == DEFAULT + "\n" + LinesText([DEFAULT][1..]);
  }

  lemma UnfencedIsStable(p: Parsed)
    requires NoCrLf(PromptText(p)) && CleanLines(Preamble(p.frontmatter)) && FENCE !in Preamble(p.frontmatter)
    ensures Stable(p)
  {
    hide NoCrLf, Normal, ParseNormal, Substitute, Has, Trim, CleanLine, Invokable, Joined, Lines;
    var pre, body := Preamble(p.frontmatter), Substitute(p.body);
    PreambleLines(p.frontmatter);
    PromptTextIs(p);
    NormalKeeps(PromptText(p));
    ReadAgain(pre, body);
    NoneLeft(p.body);
    SubstituteIsSame(body);
  }

  lemma {:induction false} FirstFence(pre: seq<string>, n: nat) returns (j: nat)
    requires n <= |pre| && FENCE in pre[..n]
    ensures j < n && pre[j] == FENCE && FENCE !in pre[..j]
  {
    var m := n - 1;
    if FENCE in pre[..m] {
      j := FirstFence(pre, m);
    } else {
      j := m;
      assert pre[..n] == pre[..m] + [pre[m]];
    }
  }

  lemma SameFirstFence(pre: seq<string>, i: nat, j: nat)
    requires i < |pre| && j < |pre| && pre[i] == FENCE == pre[j] && FENCE !in pre[..i] && FENCE !in pre[..j]
    ensures i == j
  {
    assert forall k :: 0 <= k < j ==> pre[..j][k] == pre[k];
    assert forall k :: 0 <= k < i ==> pre[..i][k] == pre[k];
  }

  /** The prompt file of a parsed command keeps its text under parsing and rendering, if and only if no carriage
      return of it meets a line feed and no fence among its lines does harm. */
  lemma PromptStableExactly(p: Parsed)
    ensures Stable(p) <==> Settled(p)
  {
    hide Stable, NoCrLf, CleanLines, HarmlessFence, Preamble, PromptText;
    var pre := Preamble(p.frontmatter);
    PromptIsPlainExactly(p);
    if !NoCrLf(PromptText(p)) {
      CrLfIsUnstable(p);
    } else if FENCE in pre {
      assert pre[..|pre|] == pre;
      var j := FirstFence(pre, |pre|);
      FencedIsStable(p, j);
      forall i | 0 <= i < |pre| && HarmlessFence(pre, i, p.body) ensures HarmlessFence(pre, j, p.body) {
        HarmlessIsFence(pre, i, p.body);
        SameFirstFence(pre, i, j);
      }
    } else {
      UnfencedIsStable(p);
    }
  }

  lemma HarmlessIsFence(pre: seq<string>, i: nat, body: string)
    requires i < |pre| && HarmlessFence(pre, i, body)
    ensures pre[i] == FENCE && FENCE !in pre[..i]
  {
  }

  /** For a file that parses: its prompt file is stable unless it is one of those. */
  lemma PromptFileIsStableExactly(text: string)
    requires Parse(text).Success?
    ensures Stable(Parse(text).value) <==> Settled(Parse(text).value)
    ensures !Has(text, CRCRLF) ==> Settled(Parse(text).value)
  {
    hide Stable, Settled, Parse, Has, PromptText;
    PromptStableExactly(Parse(text).value);
    if !Has(text, CRCRLF) {
      PromptFileIsStable(text);
      StableIs(Parse(text).value);
    }
  }

  lemma StableIs(p: Parsed)
    ensures Stable(p) <==> Parse(PromptText(p)).Success? && PromptText(Parse(PromptText(p)).value) == PromptText(p)
  {
    hide Parse, PromptText;
  }

  // ------------------------------------------------------------- an instance

  /** A fence with two carriage returns is no fence to the parser, and one to the reader of the prompt file. */
  const SLIPPED := (OPEN + "---\r") + ("\r\n" + (("a: b" + "\n") + (OPEN + "x")))

  const REGION := "---\r" + "\n" + ("a: b" + "\n")

  lemma OnePairGoes(a: string, c: string)
    requires NoCrLf(a) && NoCrLf(c)
    ensures Normal(a + ("\r\n" + c)) == a + ("\n" + c)
  {
    hide NoCrLf;
    var b := "\r\n" + c;
    assert b[0] == '\r' && b[1] == '\n' && b[2..] == c;
    assert !Meet(a, b);
    NormalKeeps(a);
    NormalKeeps(c);
    NormalConcat(a, b);
  }

  lemma SlippedParts()
    ensures NoCrLf(OPEN + "---\r") && NoCrLf(("a: b" + "\n") + (OPEN + "x"))
  {
    OpenIsPlain();
    NoCrLfConcat(OPEN, "---\r");
    NoCrLfConcat("a: b", "\n");
    NoCrLfConcat(OPEN, "x");
    NoCrLfConcat("a: b" + "\n", OPEN + "x");
  }

  lemma SlippedNormal()
    ensures Normal(SLIPPED) == OPEN + (REGION + (OPEN + "x"))
  {
    hide Normal, NoCrLf;
    SlippedParts();
    OnePairGoes(OPEN + "---\r", ("a: b" + "\n") + (OPEN + "x"));
    Regrouped(OPEN, "---\r", "\n", "a: b" + "\n", OPEN + "x");
  }

  lemma Regrouped(a: string, b: string, c: string, d: string, e: string)
    ensures (a + b) + (c + (d + e)) == a + ((b + c + d) + e)
  {
  }

  lemma RegionHasNoFence()
    ensures Whole(REGION) && Fence(REGION) == None && TrimLineFeeds(REGION) == "---\r\n" + "a: b"
  {
    hide Fence, TrimLineFeeds;
    EmptyHasNoFence();
    LineFirst("a: b", "");
    assert "a: b" + "\n" == "a: b" + "\n" + "";
    assert "a: b" != FENCE && "---\r" != FENCE by { assert |"a: b"| == 4 && |"---\r"| == 4 && |FENCE| == 3; }
    LineFirst("---\r", "a: b" + "\n");
    var s := "---\r\n" + "a: b";
    assert s[|s| - 1] == 'b';
    TrimAddsBack(s);
    assert REGION == s + "\n";
  }

  lemma FirstLineIsFence()
    ensures |Preamble(Some("---\r\n" + "a: b"))| > 0 && Preamble(Some("---\r\n" + "a: b"))[0] == FENCE
  {
    hide Trim, Invokable, Lines;
    LineWithReturn("---", "a: b");
    assert "---" + "\r\n" + "a: b" == "---\r\n" + "a: b";
    var lines := Lines("---\r\n" + "a: b");
    assert lines[0] == FENCE;
    FenceIsNotBlank();
    FirstStays(lines);
  }

  lemma FenceIsNotBlank()
    ensures Trim(FENCE) != ""
  {
    assert FENCE[0] == '-' && FENCE[2] == '-' && |FENCE| == 3 && !IsSpace('-');
    TrimStartDone(FENCE);
    TrimEndDone(FENCE);
  }

  lemma {:induction false} FirstStays(lines: seq<string>)
    requires lines != [] && Trim(lines[0]) != ""
    ensures NonBlank(lines) != [] && NonBlank(lines)[0] == lines[0]
  {
    hide Trim;
    if |lines| > 1 {
      FirstStays(lines[..|lines| - 1]);
    } else {
      assert lines[..0] == [];
    }
  }

  lemma FirstFenceHarms(p: Parsed)
    requires Preamble(p.frontmatter) != [] && Preamble(p.frontmatter)[0] == FENCE
    ensures !Settled(p)
  {
    hide Preamble, Invokable, Has, CleanLines, NoCrLf, Behind;
    var pre := Preamble(p.frontmatter);
    assert pre[0] in pre;
    forall j | 0 <= j < |pre| ensures !HarmlessFence(pre, j, p.body) {
      if j > 0 { assert pre[..j][0] == FENCE; }
    }
  }

  /** The file parses, and its prompt file reads back as another one. */
  lemma FenceSlipsIn()
    ensures Parse(SLIPPED) == Success(Parsed(Some("---\r\n" + "a: b"), "x")) && !Stable(Parse(SLIPPED).value)
  {
    hide Normal, ParseNormal, TrimLineFeeds, Fence, Preamble, Stable, Settled;
    SlippedNormal();
    RegionHasNoFence();
    ReadsBack(REGION, "x");
    FirstLineIsFence();
    FirstFenceHarms(Parsed(Some("---\r\n" + "a: b"), "x"));
    PromptStableExactly(Parsed(Some("---\r\n" + "a: b"), "x"));
  }
}
