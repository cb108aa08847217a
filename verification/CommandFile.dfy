/** Command files: Markdown with front matter, parsed into its parts, rendered again as Markdown, and rendered as
    a prompt file with `invokable:`. */
module CommandFile {
  import opened Collections
  import opened Substrings
  import opened TextLines
  import opened YamlLines

  /** The text between the fences, if there were any, and what follows them. */
  datatype Parsed = Parsed(frontmatter: Option<string>, body: string)

  datatype ParseError = NoClosingFence

  // ------------------------------------------------------------- line endings

  /** `replace("\r\n", "\n")`. */
  function Normal(s: string): (r: string)
    ensures |r| <= |s|
  {
    if s == [] then []
    else if |s| >= 2 && s[0] == '\r' && s[1] == '\n' then ['\n'] + Normal(s[2..])
    else [s[0]] + Normal(s[1..])
  }

  lemma {:induction false} NormalKeeps(s: string)
    ensures NoCrLf(s) ==> Normal(s) == s
    ensures !NoCrLf(s) ==> |Normal(s)| < |s|
    decreases |s|
  {
    if s != [] {
      NormalKeeps(s[1..]);
      assert s == [s[0]] + s[1..];
      NoCrLfConcat([s[0]], s[1..]);
    }
  }

  lemma {:induction false} NormalConcat(a: string, b: string)
    requires !Meet(a, b)
    ensures Normal(a + b) == Normal(a) + Normal(b)
    decreases |a|
  {
    if a == [] {
      assert a + b == b;
    } else if |a| >= 2 && a[0] == '\r' && a[1] == '\n' {
      assert (a + b)[2..] == a[2..] + b;
      NormalConcat(a[2..], b);
    } else {
      assert (a + b)[1..] == a[1..] + b;
      NormalConcat(a[1..], b);
    }
  }

  const CRCRLF := ['\r', '\r', '\n']

  lemma HasOneMore(c: char, s: string)
    ensures Has([c] + s, CRCRLF) <==> Has(s, CRCRLF) || At([c] + s, CRCRLF, 0)
  {
    var t := [c] + s;
    if Has(t, CRCRLF) {
      var k: nat :| At(t, CRCRLF, k);
      if k > 0 {
        assert t[k..k + 3] == s[k - 1..k - 1 + 3];
        assert At(s, CRCRLF, k - 1);
      }
    }
    if Has(s, CRCRLF) {
      var k: nat :| At(s, CRCRLF, k);
      assert t[k + 1..k + 1 + 3] == s[k..k + 3];
      assert At(t, CRCRLF, k + 1);
    }
  }

  lemma AtFront(t: string)
    ensures At(t, CRCRLF, 0) <==> |t| >= 3 && t[0] == '\r' && t[1] == '\r' && t[2] == '\n'
  {
    if |t| >= 3 {
      assert t[0..3] == [t[0], t[1], t[2]];
    }
  }

  /** After the replacement a carriage return still stands before a line feed exactly where there had been
      two of them. */
  lemma {:induction false} NormalLeaves(s: string)
    ensures NoCrLf(Normal(s)) <==> !Has(s, CRCRLF)
    decreases |s|
  {
    hide At, Has;
    if s == [] {
      EmptyHasNothing(CRCRLF);
    } else if |s| >= 2 && s[0] == '\r' && s[1] == '\n' {
      NormalLeaves(s[2..]);
      NoCrLfConcat(['\n'], Normal(s[2..]));
      HasOneMore(s[1], s[2..]);
      HasOneMore(s[0], [s[1]] + s[2..]);
      assert s == [s[0]] + ([s[1]] + s[2..]);
      AtFront(s);
      AtFront([s[1]] + s[2..]);
    } else {
      NormalLeaves(s[1..]);
      NoCrLfConcat([s[0]], Normal(s[1..]));
      HasOneMore(s[0], s[1..]);
      assert s == [s[0]] + s[1..];
      AtFront(s);
    }
  }

  // ------------------------------------------------------------------- parsing

  const OPEN := "---\n"
  const FENCE := "---"

  function Shift(found: Option<nat>, by_: nat): Option<nat> {
    if found.None? then None else Some(by_ + found.value)
  }

  /** Where the first line that is exactly `---` starts. */
  function Fence(rest: string): (r: Option<nat>)
    ensures r.Some? ==> r.value + 3 <= |rest| && rest[r.value..r.value + 3] == FENCE
    ensures r.Some? ==> r.value + 3 == |rest| || rest[r.value + 3] == '\n'
    decreases |rest|
  {
    if rest == [] then None
    else
      var n := Find(rest, '\n');
      if rest[..n] == FENCE then Some(0)
      else if n == |rest| then None
      else Shift(Fence(rest[n + 1..]), n + 1)
  }

  function TrimLineFeeds(s: string): string { StripEnd(s, '\n') }

  function ParseNormal(t: string): Result<Parsed, ParseError> {
    if |t| < 4 || t[..4] != OPEN then Success(Parsed(None, t))
    else
      var rest := t[4..];
      match Fence(rest)
      case None => Failure(NoClosingFence)
      case Some(i) =>
        var start := if i + 3 + 1 < |rest| then i + 3 + 1 else |rest|;
        Success(Parsed(Some(TrimLineFeeds(rest[..i])), rest[start..]))
  }

  function Parse(text: string): Result<Parsed, ParseError> { ParseNormal(Normal(text)) }

  /** What the scan still has to find from line start `idx` on. */
  function FenceFrom(rest: string, idx: nat): Option<nat> {
    if idx >= |rest| then None
    else Shift(Fence(rest[idx..]), idx)
  }

  lemma FenceUnfolds(s: string)
    requires s != []
    ensures var n := Find(s, '\n');
      Fence(s) == if s[..n] == FENCE then Some(0)
        else if n == |s| then None
        else Shift(Fence(s[n + 1..]), n + 1)
  {
    hide Find;
  }

  lemma FenceStep(rest: string, idx: nat)
    requires idx < |rest|
    ensures var end := idx + Find(rest[idx..], '\n');
      end <= |rest| && FenceFrom(rest, idx) == if rest[idx..end] == FENCE then Some(idx) else FenceFrom(rest, end + 1)
  {
    hide Find, Fence;
    var n := Find(rest[idx..], '\n');
    FenceUnfolds(rest[idx..]);
    assert rest[idx..][..n] == rest[idx..idx + n];
    if n < |rest[idx..]| {
      assert rest[idx..][n + 1..] == rest[idx + n + 1..];
      EmptyHasNoFence();
    }
  }

  lemma EmptyHasNoFence()
    ensures Fence("") == None
  {
  }

  /** The scan over the lines, by index. */
  method FindFence(rest: string) returns (fence: Option<nat>)
    ensures fence == Fence(rest)
  {
    hide Fence, Find;
    var idx := 0;
    assert rest[0..] == rest;
    if rest == [] { EmptyHasNoFence(); }
    while idx < |rest|
      invariant Fence(rest) == FenceFrom(rest, idx)
      decreases |rest| + 1 - idx
    {
      FenceStep(rest, idx);
      var lineEnd := idx + Find(rest[idx..], '\n');
      if rest[idx..lineEnd] == FENCE {
        return Some(idx);
      }
      idx := lineEnd + 1;
    }
    fence := None;
  }

  method ParseText(text: string) returns (r: Result<Parsed, ParseError>)
    ensures r == Parse(text)
  {
    hide Fence, Normal, TrimLineFeeds;
    var normalized := Normal(text);
    if |normalized| < 4 || normalized[..4] != OPEN {
      return Success(Parsed(None, normalized));
    }
    var rest := normalized[4..];
    var fence := FindFence(rest);
    if fence.None? {
      return Failure(NoClosingFence);
    }
    var i := fence.value;
    var start := if i + 3 + 1 < |rest| then i + 3 + 1 else |rest|;
    r := Success(Parsed(Some(TrimLineFeeds(rest[..i])), rest[start..]));
  }

  // ------------------------------------------------------------ fences and lines

  /** A text that is empty or ends with a line feed: whole lines. */
  predicate Whole(s: string) { s == [] || s[|s| - 1] == '\n' }

  lemma LineFirst(l: string, rest: string)
    requires '\n' !in l
    ensures Fence(l + "\n" + rest) ==
      if l == FENCE then Some(0) else Shift(Fence(rest), |l| + 1)
  {
    hide Find;
    var t := l + "\n" + rest;
    assert forall j :: 0 <= j < |l| ==> t[j] == l[j];
    FindIs(t, '\n', |l|);
    assert t[..|l|] == l && t[|l| + 1..] == rest;
  }

  /** A whole text starts with a line. */
  lemma FirstLine(s: string) returns (l: string, rest: string)
    requires Whole(s) && s != []
    ensures s == l + "\n" + rest && '\n' !in l && Whole(rest)
  {
    hide Find;
    var n := Find(s, '\n');
    assert s[|s| - 1] == '\n';
    l, rest := s[..n], s[n + 1..];
    CutAt(s, n);
    assert [s[n]] == "\n";
    forall j | 0 <= j < n ensures l[j] != '\n' {
      assert l[j] == s[j];
    }
  }

  /** Whole lines without a fence are skipped; with one, what follows does not matter. */
  lemma {:induction false} FenceAfter(a: string, b: string)
    requires Whole(a)
    ensures Fence(a + b) ==
      if Fence(a).Some? then Fence(a) else Shift(Fence(b), |a|)
    decreases |a|
  {
    hide Fence;
    if a == [] {
      assert a + b == b;
      EmptyHasNoFence();
    } else {
      var l, rest := FirstLine(a);
      LineFirst(l, rest);
      LineFirst(l, rest + b);
      assert a + b == l + "\n" + (rest + b);
      FenceAfter(rest, b);
    }
  }

  /** What stands before the fence that was found: whole lines without a fence. */
  lemma {:induction false} BeforeFence(rest: string)
    requires Fence(rest).Some?
    ensures Whole(rest[..Fence(rest).value]) && Fence(rest[..Fence(rest).value]) == None
    decreases |rest|
  {
    hide Find, Fence;
    EmptyHasNoFence();
    FenceUnfolds(rest);
    var n := Find(rest, '\n');
    if rest[..n] == FENCE {
      assert rest[..0] == "";
    } else {
      var l, tail := rest[..n], rest[n + 1..];
      BeforeFence(tail);
      var i := Fence(tail).value;
      LineBefore(rest, n, i);
      LineFirst(l, tail[..i]);
    }
  }

  lemma LineBefore(rest: string, n: nat, i: nat)
    requires n < |rest| && rest[n] == '\n' && (forall j :: 0 <= j < n ==> rest[j] != '\n') && n + 1 + i <= |rest|
    ensures '\n' !in rest[..n] && rest[..n + 1 + i] == rest[..n] + "\n" + rest[n + 1..][..i]
  {
    assert forall j :: 0 <= j < n ==> rest[..n][j] == rest[j];
  }

  /** A rendered file reads back: fence-free whole lines, the fence, a body. */
  lemma ReadsBack(region: string, body: string)
    requires Whole(region) && Fence(region) == None
    ensures ParseNormal(OPEN + (region + (OPEN + body))) == Success(Parsed(Some(TrimLineFeeds(region)), body))
  {
    hide Fence, TrimLineFeeds;
    var rest := region + (OPEN + body);
    var t := OPEN + rest;
    assert t[..4] == OPEN && t[4..] == rest;
    assert OPEN + body == "---" + "\n" + body;
    LineFirst("---", body);
    FenceAfter(region, OPEN + body);
    assert rest[..|region|] == region && rest[|region| + 4..] == body;
  }

  // ------------------------------------------------ Markdown there and back again

  function RenderMarkdown(p: Parsed): string {
    if p.frontmatter.Some? then OPEN + (p.frontmatter.value + "\n" + (OPEN + p.body)) else p.body
  }

  lemma {:induction false} TrimmedShape(s: string)
    ensures TrimLineFeeds(s) <= s
    ensures TrimLineFeeds(s) != [] ==> TrimLineFeeds(s)[|TrimLineFeeds(s)| - 1] != '\n'
    ensures forall i :: |TrimLineFeeds(s)| <= i < |s| ==> s[i] == '\n'
    ensures Whole(s) && s != [] ==> |TrimLineFeeds(s)| < |s|
    decreases |s|
  {
    if s != [] && s[|s| - 1] == '\n' {
      TrimmedShape(s[..|s| - 1]);
    }
  }

  lemma TrimAddsBack(s: string)
    requires s == [] || s[|s| - 1] != '\n'
    ensures TrimLineFeeds(s + "\n") == s
  {
    assert (s + "\n")[..|s + "\n"| - 1] == s;
    assert StripEnd(s, '\n') == s;
  }

  /** What a successful parse found. */
  lemma Found(t: string) returns (region: string, tail: string)
    requires ParseNormal(t).Success? && ParseNormal(t).value.frontmatter.Some?
    ensures t == OPEN + (region + (FENCE + tail)) && Whole(region) && Fence(region) == None
    ensures tail == [] || tail[0] == '\n'
    ensures ParseNormal(t) == Success(Parsed(Some(TrimLineFeeds(region)), if tail == [] then [] else tail[1..]))
  {
    hide Fence, TrimLineFeeds;
    var rest := t[4..];
    assert t == OPEN + rest;
    var i := Fence(rest).value;
    BeforeFence(rest);
    region, tail := rest[..i], rest[i + 3..];
    CutThree(rest, i);
  }

  lemma CutThree(rest: string, i: nat)
    requires i + 3 <= |rest|
    ensures rest == rest[..i] + (rest[i..i + 3] + rest[i + 3..])
    ensures i + 3 < |rest| ==> rest[i + 3..][0] == rest[i + 3] && rest[i + 3..][1..] == rest[i + 4..]
    ensures i + 3 == |rest| ==> rest[i + 3..] == []
  {
  }

  /** The front matter with its one line feed back is fence-free too. */
  lemma TrimmedHasNoFence(region: string)
    requires Whole(region) && Fence(region) == None
    ensures Whole(TrimLineFeeds(region) + "\n") && Fence(TrimLineFeeds(region) + "\n") == None
  {
    hide Fence, TrimLineFeeds;
    TrimmedShape(region);
    var fm := TrimLineFeeds(region);
    if region == [] {
      LineFirst("", "");
      EmptyHasNoFence();
      assert fm + "\n" == "" + "\n" + "";
    } else {
      var more := region[|fm| + 1..];
      assert region[|fm|] == '\n';
      assert region == fm + "\n" + more;
      FenceAfter(fm + "\n", more);
    }
  }

  lemma OpenIsPlain()
    ensures NoCrLf(OPEN) && NoCrLf(FENCE) && OPEN == FENCE + "\n"
  {
  }

  /** When line feeds come without carriage returns, the rendered text parses to the very same value. */
  lemma MarkdownRoundTrip(t: string)
    requires NoCrLf(t) && ParseNormal(t).Success?
    ensures Parse(RenderMarkdown(ParseNormal(t).value)) == ParseNormal(t)
  {
    hide Fence, TrimLineFeeds, Normal, NoCrLf, ParseNormal;
    var p := ParseNormal(t).value;
    if p.frontmatter.None? {
      PlainBody(t);
      NormalKeeps(t);
    } else {
      var region, tail := Found(t);
      var fm := TrimLineFeeds(region);
      TrimmedHasNoFence(region);
      TrimmedShape(region);
      ReadsBack(fm + "\n", p.body);
      TrimAddsBack(fm);
      RenderedIsPlain(region, tail);
      NormalKeeps(RenderMarkdown(p));
    }
  }

  lemma PlainBody(t: string)
    requires ParseNormal(t).Success? && ParseNormal(t).value.frontmatter.None?
    ensures ParseNormal(t).value == Parsed(None, t)
  {
    hide Fence;
  }

  /** Rendering what was found brings no new line ending in. */
  lemma RenderedIsPlain(region: string, tail: string)
    requires Whole(region) && (tail == [] || tail[0] == '\n')
    ensures var fm, body := TrimLineFeeds(region), if tail == [] then [] else tail[1..];
      NoCrLf(OPEN + (fm + "\n" + (OPEN + body))) <==> NoCrLf(OPEN + (region + (FENCE + tail)))
  {
    hide NoCrLf, TrimLineFeeds;
    var fm, body := TrimLineFeeds(region), if tail == [] then [] else tail[1..];
    OpenIsPlain();
    BlankIsPlain();
    NoCrLfConcat(OPEN, fm + "\n" + (OPEN + body));
    NoCrLfConcat(fm + "\n", OPEN + body);
    NoCrLfConcat(OPEN, body);
    NoCrLfConcat(OPEN, region + (FENCE + tail));
    NoCrLfConcat(region, FENCE + tail);
    NoCrLfConcat(FENCE, tail);
    TrimmedShape(region);
    if tail != [] {
      assert tail == "\n" + body;
      NoCrLfConcat("\n", body);
    }
    if region != [] {
      var more := region[|fm| + 1..];
      assert region[|fm|] == '\n' && region == fm + "\n" + more;
      NoCrLfConcat(fm + "\n", more);
      LineFeedsArePlain(more);
    } else {
      assert fm == [];
    }
  }

  lemma BlankIsPlain()
    ensures NoCrLf("") && NoCrLf("\n") && NoCrLf("" + "\n")
  {
  }

  lemma LineFeedsArePlain(s: string)
    requires forall i :: 0 <= i < |s| ==> s[i] == '\n'
    ensures NoCrLf(s)
  {
  }

  /** Otherwise the second parse finds something else. */
  lemma MarkdownChanges(t: string)
    requires !NoCrLf(t) && ParseNormal(t).Success?
    ensures Parse(RenderMarkdown(ParseNormal(t).value)) != ParseNormal(t)
  {
    hide Fence, TrimLineFeeds, Normal, NoCrLf, ParseNormal;
    var p := ParseNormal(t).value;
    NormalKeeps(t);
    if p.frontmatter.None? {
      PlainBody(t);
      if ParseNormal(Normal(t)).Success? && ParseNormal(Normal(t)).value.frontmatter.None? {
        PlainBody(Normal(t));
      }
    } else {
      var region, tail := Found(t);
      RenderedIsPlain(region, tail);
      RenderedChanges(TrimLineFeeds(region), p.body) by {
        TrimmedHasNoFence(region);
      }
    }
  }

  lemma RenderedChanges(fm: string, body: string)
    requires !NoCrLf(OPEN + (fm + "\n" + (OPEN + body)))
    ensures Parse(OPEN + (fm + "\n" + (OPEN + body))) != Success(Parsed(Some(fm), body))
  {
    hide Fence, TrimLineFeeds, Normal, NoCrLf, ParseNormal;
    var front := fm + "\n";
    OpenIsPlain();
    NoCrLfConcat(OPEN, front + (OPEN + body));
    NoCrLfConcat(front, OPEN + body);
    NoCrLfConcat(OPEN, body);
    NormalKeeps(OPEN);
    NormalConcat(OPEN, front + (OPEN + body));
    NormalConcat(front, OPEN + body);
    NormalConcat(OPEN, body);
    NormalKeeps(front);
    NormalKeeps(body);
    NormalEndsLine(fm);
    var g, b := Normal(front), Normal(body);
    TrimmedShape(g);
    if Fence(g).None? {
      ReadsBack(g, b);
    } else {
      FenceInside(g, b);
    }
  }

  lemma {:induction false} NormalEndsLine(s: string)
    ensures Normal(s + "\n") != [] && Whole(Normal(s + "\n"))
    decreases |s|
  {
    if s != [] {
      if s == ['\r'] {
        assert s + "\n" == ['\r', '\n'];
        assert (s + "\n")[2..] == [];
      } else if |s| >= 2 && s[0] == '\r' && s[1] == '\n' {
        NormalEndsLine(s[2..]);
        assert (s + "\n")[2..] == s[2..] + "\n";
      } else {
        NormalEndsLine(s[1..]);
        assert (s + "\n")[1..] == s[1..] + "\n";
      }
    }
  }

  /** A fence inside the front matter cuts it short. */
  lemma FenceInside(g: string, b: string)
    requires Whole(g) && Fence(g).Some?
    ensures var r := ParseNormal(OPEN + (g + (OPEN + b)));
      r.Success? && r.value.frontmatter.Some? && |r.value.frontmatter.value| + 3 <= |g|
  {
    hide Fence, TrimLineFeeds;
    var rest := g + (OPEN + b);
    var t := OPEN + rest;
    assert t[..4] == OPEN && t[4..] == rest;
    FenceAfter(g, OPEN + b);
    FenceFits(g);
    TrimmedShape(rest[..Fence(g).value]);
  }

  lemma FenceFits(g: string)
    ensures Fence(g).Some? ==> Fence(g).value + 3 <= |g|
  {
  }

  /** `parse` after rendering as Markdown gives the parsed value back, if and only if the file holds no
      carriage return pair before a line feed (one of them survives the first parse, not the second). */
  lemma MarkdownRoundTripExactly(text: string)
    requires Parse(text).Success?
    ensures Parse(RenderMarkdown(Parse(text).value)) == Parse(text) <==> !Has(text, CRCRLF)
  {
    hide Fence, TrimLineFeeds, Normal, NoCrLf, ParseNormal;
    NormalLeaves(text);
    if NoCrLf(Normal(text)) {
      MarkdownRoundTrip(Normal(text));
    } else {
      MarkdownChanges(Normal(text));
    }
  }

  // ------------------------------------------------------------- prompt files

  const ARGUMENTS := "$ARGUMENTS"
  const INPUT := "{{{ input }}}"

  /** `replace("$ARGUMENTS", "{{{ input }}}")`. */
  function Substitute(s: string): string
    decreases |s|
  {
    if s == [] then []
    else if |s| >= 10 && s[..10] == ARGUMENTS then INPUT + Substitute(s[10..])
    else [s[0]] + Substitute(s[1..])
  }

  lemma ArgumentLiterals()
    ensures |ARGUMENTS| == 10 && ARGUMENTS[0] == '$' && '{' !in ARGUMENTS[1..] && '$' !in ARGUMENTS[1..]
    ensures |INPUT| == 13 && '$' !in INPUT && INPUT[0] == '{' && '\r' !in INPUT && '\n' !in INPUT
  {
    assert ARGUMENTS[1..] == "ARGUMENTS";
  }

  /** A substituted text starts with a brace-free word only if the text did. */
  lemma {:induction false} StartsAlike(s: string, q: string)
    requires '{' !in q && |q| <= |Substitute(s)| && Substitute(s)[..|q|] == q
    ensures |q| <= |s| && s[..|q|] == q
    decreases |q|
  {
    if q != [] {
      ArgumentLiterals();
      assert Substitute(s)[0] == q[0] && q[0] in q;
      assert s != [];
      var rest := Substitute(s[1..]);
      assert Substitute(s) == [s[0]] + rest;
      assert rest[..|q| - 1] == q[1..];
      StartsAlike(s[1..], q[1..]);
      assert s == [s[0]] + s[1..] && q == [q[0]] + q[1..];
    }
  }

  /** No `$ARGUMENTS` is left, wherever one might have been put together. */
  lemma {:induction false} NoneLeft(s: string)
    ensures !Has(Substitute(s), ARGUMENTS)
    decreases |s|
  {
    hide Has;
    ArgumentLiterals();
    if s == [] {
      EmptyHasNothing(ARGUMENTS);
    } else if |s| >= 10 && s[..10] == ARGUMENTS {
      NoneLeft(s[10..]);
      SkipFront(INPUT, Substitute(s[10..]));
    } else {
      NoneLeft(s[1..]);
      NotAtFront(s);
      PutFront(s[0], Substitute(s[1..]));
    }
  }

  /** A front without `$` adds no occurrence. */
  lemma SkipFront(a: string, b: string)
    requires '$' !in a && !Has(b, ARGUMENTS)
    ensures !Has(a + b, ARGUMENTS)
  {
    ArgumentLiterals();
    forall k: nat ensures !At(a + b, ARGUMENTS, k) {
      if k >= |a| && k + 10 <= |a + b| {
        assert (a + b)[k..k + 10] == b[k - |a|..k - |a| + 10];
        assert !At(b, ARGUMENTS, k - |a|);
      } else if k + 10 <= |a + b| {
        assert (a + b)[k..k + 10][0] == a[k];
      }
    }
  }

  lemma PutFront(c: char, b: string)
    requires !Has(b, ARGUMENTS) && !At([c] + b, ARGUMENTS, 0)
    ensures !Has([c] + b, ARGUMENTS)
  {
    ArgumentLiterals();
    var t := [c] + b;
    forall k: nat ensures !At(t, ARGUMENTS, k) {
      if k > 0 && k + 10 <= |t| {
        assert t[k..k + 10] == b[k - 1..k - 1 + 10];
        assert !At(b, ARGUMENTS, k - 1);
      }
    }
  }

  lemma NotAtFront(s: string)
    requires s != [] && !(|s| >= 10 && s[..10] == ARGUMENTS)
    ensures !At([s[0]] + Substitute(s[1..]), ARGUMENTS, 0)
  {
    ArgumentLiterals();
    var rest := Substitute(s[1..]);
    var t := [s[0]] + rest;
    if At(t, ARGUMENTS, 0) {
      assert t[0..10] == ARGUMENTS;
      assert rest[..9] == ARGUMENTS[1..] by { assert rest[..9] == t[0..10][1..]; }
      FrontIsWhole(s, rest);
    }
  }

  lemma FrontIsWhole(s: string, rest: string)
    requires s != [] && s[0] == '$' && rest == Substitute(s[1..]) && |rest| >= 9 && rest[..9] == ARGUMENTS[1..]
    ensures |s| >= 10 && s[..10] == ARGUMENTS
  {
    ArgumentLiterals();
    StartsAlike(s[1..], ARGUMENTS[1..]);
    assert s[..10] == [s[0]] + s[1..][..9];
    assert ARGUMENTS == [ARGUMENTS[0]] + ARGUMENTS[1..];
  }

  lemma {:induction false} NothingToSubstitute(s: string)
    requires !Has(s, ARGUMENTS)
    ensures Substitute(s) == s
    decreases |s|
  {
    ArgumentLiterals();
    if s != [] {
      assert !At(s, ARGUMENTS, 0);
      if |s| >= 10 {
        assert s[0..10] == s[..10];
      }
      forall k: nat ensures !At(s[1..], ARGUMENTS, k) {
        if k + 10 <= |s[1..]| {
          assert s[1..][k..k + 10] == s[k + 1..k + 1 + 10];
          assert !At(s, ARGUMENTS, k + 1);
        }
      }
      NothingToSubstitute(s[1..]);
      assert s == [s[0]] + s[1..];
    }
  }

  lemma InputIsPlain()
    ensures NoCrLf(INPUT) && forall s :: !Meet(INPUT, s)
  {
    assert INPUT[|INPUT| - 1] == '}';
    ArgumentLiterals();
  }

  lemma OneIsPlain(c: char)
    ensures NoCrLf([c])
  {
  }

  /** Substituting puts no carriage return before a line feed. */
  lemma {:induction false} SubstituteIsPlain(s: string)
    requires NoCrLf(s)
    ensures NoCrLf(Substitute(s))
    ensures Substitute(s) != [] && Substitute(s)[0] == '\n' ==> s != [] && s[0] == '\n'
    decreases |s|
  {
    hide NoCrLf;
    ArgumentLiterals();
    InputIsPlain();
    if s == [] {
      assert Substitute(s) == s;
    } else if |s| >= 10 && s[..10] == ARGUMENTS {
      assert s == s[..10] + s[10..];
      NoCrLfConcat(s[..10], s[10..]);
      SubstituteIsPlain(s[10..]);
      NoCrLfConcat(INPUT, Substitute(s[10..]));
      assert Substitute(s)[0] == INPUT[0];
    } else {
      assert s == [s[0]] + s[1..];
      NoCrLfConcat([s[0]], s[1..]);
      SubstituteIsPlain(s[1..]);
      OneIsPlain(s[0]);
      NoCrLfConcat([s[0]], Substitute(s[1..]));
    }
  }

  function NonBlank(lines: seq<string>): seq<string> {
    if lines == [] then []
    else NonBlank(lines[..|lines| - 1]) + (if Trim(lines[|lines| - 1]) == "" then [] else [lines[|lines| - 1]])
  }

  const INVOKABLE := "invokable:"

  predicate Invokable(l: string) {
    var t := TrimStart(l);
    |t| >= 10 && t[..10] == INVOKABLE
  }

  ghost predicate SomeInvokable(lines: seq<string>) { exists i :: 0 <= i < |lines| && Invokable(lines[i]) }

  ghost function Preamble(frontmatter: Option<string>): seq<string> {
    var kept := if frontmatter.Some? then NonBlank(Lines(frontmatter.value)) else [];
    if SomeInvokable(kept) then kept else kept + [INVOKABLE + " true"]
  }

  ghost function PromptText(p: Parsed): string {
    OPEN + (Joined(Preamble(p.frontmatter)) + "\n" + (OPEN + Substitute(p.body)))
  }

  method KeepNonBlank(lines: seq<string>) returns (kept: seq<string>)
    ensures kept == NonBlank(lines)
  {
    hide Trim;
    kept := [];
    for i := 0 to |lines|
      invariant kept == NonBlank(lines[..i])
    {
      assert lines[..i + 1][..i] == lines[..i];
      if Trim(lines[i]) != "" {
        kept := kept + [lines[i]];
      }
    }
    assert lines[..|lines|] == lines;
  }

  method AnyInvokable(lines: seq<string>) returns (found: bool)
    ensures found <==> SomeInvokable(lines)
  {
    hide Invokable;
    found := false;
    for i := 0 to |lines|
      invariant found <==> exists j :: 0 <= j < i && Invokable(lines[j])
    {
      if Invokable(lines[i]) {
        found := true;
      }
    }
  }

  /** Rendering as a prompt file, with the preamble built line by line. */
  method RenderPromptFile(p: Parsed) returns (out: string)
    ensures out == PromptText(p)
  {
    hide Lines, Joined, NonBlank, SomeInvokable, Substitute;
    var body := Substitute(p.body);
    var preamble: seq<string> := [];
    if p.frontmatter.Some? {
      preamble := KeepNonBlank(Lines(p.frontmatter.value));
    }
    var hasInvokable := AnyInvokable(preamble);
    if !hasInvokable {
      preamble := preamble + [INVOKABLE + " true"];
    }
    out := OPEN + (Joined(preamble) + "\n" + (OPEN + body));
  }

  // ---- a prompt file reads back as what it was rendered from

  /** Lines that are neither blank nor a fence, one of them `invokable:`. */
  ghost predicate GoodPreamble(lines: seq<string>) {
    && lines != [] && SomeInvokable(lines) && CleanLines(lines)
    && forall i :: 0 <= i < |lines| ==> Trim(lines[i]) != "" && lines[i] != FENCE
  }

  lemma {:induction false} NonBlankAt(lines: seq<string>, i: nat)
    requires i < |NonBlank(lines)|
    ensures Trim(NonBlank(lines)[i]) != "" && NonBlank(lines)[i] in lines
    decreases |lines|
  {
    hide Trim;
    var n := |lines| - 1;
    var kept := NonBlank(lines[..n]);
    if i < |kept| {
      NonBlankAt(lines[..n], i);
      assert NonBlank(lines)[i] == kept[i];
      assert lines == lines[..n] + [lines[n]];
    } else {
      assert NonBlank(lines)[i] == lines[n];
    }
  }

  lemma {:induction false} NonBlankKeeps(lines: seq<string>)
    requires forall i :: 0 <= i < |lines| ==> Trim(lines[i]) != ""
    ensures NonBlank(lines) == lines
  {
    hide Trim;
    if lines != [] {
      NonBlankKeeps(lines[..|lines| - 1]);
    }
  }

  /** Whole lines have no fence exactly when none of their lines is one. */
  lemma {:induction false} FenceInLines(lines: seq<string>)
    requires CleanLines(lines) && lines != []
    ensures Fence(Joined(lines) + "\n").None? <==> FENCE !in lines
    decreases |lines|
  {
    hide Fence;
    EmptyHasNoFence();
    assert CleanLine(lines[0]);
    if |lines| == 1 {
      LineFirst(lines[0], "");
      assert Joined(lines) + "\n" == lines[0] + "\n" + "";
      assert FENCE in lines <==> FENCE == lines[0];
    } else {
      FenceInLines(lines[1..]);
      LineFirst(lines[0], Joined(lines[1..]) + "\n");
      assert Joined(lines) + "\n" == lines[0] + "\n" + (Joined(lines[1..]) + "\n");
      assert FENCE in lines <==> FENCE == lines[0] || FENCE in lines[1..];
    }
  }

  lemma TrimOfEmpty()
    ensures Trim("") == ""
  {
  }

  lemma GoodText(lines: seq<string>)
    requires GoodPreamble(lines)
    ensures Whole(Joined(lines) + "\n") && Fence(Joined(lines) + "\n").None?
    ensures TrimLineFeeds(Joined(lines) + "\n") == Joined(lines)
    ensures Lines(Joined(lines)) == lines && Preamble(Some(Joined(lines))) == lines
  {
    hide Fence, TrimLineFeeds, Joined, Lines, Trim, CleanLine, Invokable;
    TrimOfEmpty();
    assert lines[|lines| - 1] != [];
    FenceInLines(lines);
    JoinedEnds(lines);
    TrimAddsBack(Joined(lines));
    JoinedReads(lines, false);
    assert Joined(lines) + "" == Joined(lines);
    NonBlankKeeps(lines);
  }

  /** The preamble of a parsed file is good, its front matter's lines being free of CRLF line ends. */
  lemma PreambleIsGood(frontmatter: Option<string>)
    requires frontmatter.Some? ==>
      NoCrLf(frontmatter.value + "\n") && (frontmatter.value == "" || !EndsLine(frontmatter.value))
      && Fence(frontmatter.value + "\n").None?
    ensures GoodPreamble(Preamble(frontmatter))
  {
    hide Fence, Joined, Lines, Trim, CleanLine, NonBlank, Invokable, NoCrLf;
    var kept := if frontmatter.Some? then NonBlank(Lines(frontmatter.value)) else [];
    forall i | 0 <= i < |kept| ensures CleanLine(kept[i]) && Trim(kept[i]) != "" && kept[i] != FENCE {
      NonBlankAt(Lines(frontmatter.value), i);
      FrontLine(frontmatter.value, kept[i]);
    }
    InvokableLine();
    if !SomeInvokable(kept) {
      LastInvokable(kept, INVOKABLE + " true");
    } else {
      assert kept != [];
    }
  }

  lemma PlainIsPaired(fm: string)
    requires NoCrLf(fm + "\n")
    ensures NoCrLf(fm) && ReturnsPaired(fm)
  {
    NoCrLfConcat(fm, "\n");
    forall i ensures !Triple(fm, i) {
      if 0 <= i < |fm| - 2 { assert !(fm[i + 1] == '\r' && fm[i + 1 + 1] == '\n'); }
    }
  }

  /** A line of fence-free front matter. */
  lemma FrontLine(fm: string, l: string)
    requires NoCrLf(fm + "\n") && (fm == "" || !EndsLine(fm)) && Fence(fm + "\n").None? && l in Lines(fm)
    ensures CleanLine(l) && l != FENCE
  {
    hide Fence, Joined, Lines, CleanLine, NoCrLf, ReturnsPaired;
    EmptyHasNoLines();
    PlainIsPaired(fm);
    LinesCleanExactly(fm);
    LinesJoinExactly(fm);
    assert Joined(Lines(fm)) + "" == Joined(Lines(fm));
    FenceInLines(Lines(fm));
  }

  lemma LastInvokable(lines: seq<string>, l: string)
    requires Invokable(l)
    ensures SomeInvokable(lines + [l])
  {
    hide Invokable;
    assert (lines + [l])[|lines|] == l;
  }

  lemma InvokableLine()
    ensures Invokable(INVOKABLE + " true") && CleanLine(INVOKABLE + " true")
    ensures Trim(INVOKABLE + " true") != "" && INVOKABLE + " true" != FENCE
  {
    hide Invokable, CleanLine, Trim;
    DefaultLine();
    DefaultIsInvokable();
    DefaultIsClean();
    DefaultIsNotBlank();
  }

  lemma DefaultLine()
    ensures INVOKABLE + " true" == "invokable: true" && "invokable: true" != FENCE
  {
    assert |FENCE| == 3;
  }

  lemma DefaultIsClean()
    ensures CleanLine("invokable: true")
  {
  }

  lemma DefaultIsNotBlank()
    ensures TrimStart("invokable: true") == "invokable: true" && Trim("invokable: true") != ""
  {
    var l := "invokable: true";
    assert l[0] == 'i' && l[|l| - 1] == 'e';
    assert !IsSpace('i') && !IsSpace('e');
    TrimStartDone(l);
    TrimEndDone(l);
  }

  lemma DefaultIsInvokable()
    ensures Invokable("invokable: true")
  {
    hide TrimStart;
    DefaultIsNotBlank();
    assert "invokable: true"[..10] == INVOKABLE;
  }

  /** For a file without two carriage returns before a line feed (CRLF line ends are fine): its prompt file
      parses, to a body without `$ARGUMENTS` and front matter with an `invokable:` line, and rendering that as
      a prompt file gives the same text again. */
  lemma PromptFileIsStable(text: string)
    requires !Has(text, CRCRLF) && Parse(text).Success?
    ensures var out := PromptText(Parse(text).value);
      && Parse(out).Success?
      && var again := Parse(out).value;
         && PromptText(again) == out
         && again.frontmatter.Some? && SomeInvokable(Lines(again.frontmatter.value))
         && !Has(again.body, ARGUMENTS)
  {
    hide Fence, TrimLineFeeds, Normal, ParseNormal, Substitute, Has, Joined, Lines, Trim, CleanLine, Invokable, NoCrLf;
    var p := Parse(text).value;
    NormalLeaves(text);
    ParsedParts(Normal(text));
    var pre, body := Preamble(p.frontmatter), Substitute(p.body);
    PreambleIsGood(p.frontmatter);
    GoodText(pre);
    ReadsBack(Joined(pre) + "\n", body);
    PromptIsPlain(pre, p.body);
    NormalKeeps(PromptText(p));
    NoneLeft(p.body);
    NothingToSubstitute(body);
  }

  lemma PlainFront(region: string)
    requires NoCrLf(region) && Whole(region)
    ensures NoCrLf(TrimLineFeeds(region) + "\n")
  {
    hide TrimLineFeeds, NoCrLf;
    TrimmedShape(region);
    var fm := TrimLineFeeds(region);
    if region == [] {
      BlankIsPlain();
      assert fm + "\n" == "\n";
    } else {
      var more := region[|fm| + 1..];
      assert region == (fm + "\n") + more;
      NoCrLfConcat(fm + "\n", more);
    }
  }

  /** What the front matter and the body of a file without CRLF line ends look like. */
  lemma ParsedParts(t: string)
    requires NoCrLf(t) && ParseNormal(t).Success?
    ensures var p := ParseNormal(t).value;
      && NoCrLf(p.body)
      && (p.frontmatter.Some? ==>
            NoCrLf(p.frontmatter.value + "\n") && (p.frontmatter.value == "" || !EndsLine(p.frontmatter.value))
            && Fence(p.frontmatter.value + "\n").None?)
  {
    hide Fence, TrimLineFeeds, ParseNormal, NoCrLf;
    var p := ParseNormal(t).value;
    if p.frontmatter.Some? {
      var region, tail := Found(t);
      TrimmedHasNoFence(region);
      TrimmedShape(region);
      NoCrLfConcat(OPEN, region + (FENCE + tail));
      NoCrLfConcat(region, FENCE + tail);
      NoCrLfConcat(FENCE, tail);
      PlainFront(region);
      if tail != [] {
        assert tail == [tail[0]] + tail[1..];
        NoCrLfConcat([tail[0]], tail[1..]);
      }
    } else {
      PlainBody(t);
    }
  }

  lemma PromptIsPlain(pre: seq<string>, body: string)
    requires CleanLines(pre) && pre != [] && NoCrLf(body)
    requires Lines(Joined(pre)) == pre
    ensures NoCrLf(OPEN + (Joined(pre) + "\n" + (OPEN + Substitute(body))))
  {
    hide NoCrLf, Substitute, Joined, Lines, CleanLine;
    OpenIsPlain();
    BlankIsPlain();
    SubstituteIsPlain(body);
    CleanJoinIsPlain(pre);
    NoCrLfConcat(OPEN, Joined(pre) + "\n" + (OPEN + Substitute(body)));
    NoCrLfConcat(Joined(pre) + "\n", OPEN + Substitute(body));
    NoCrLfConcat(OPEN, Substitute(body));
  }

  lemma {:induction false} CleanJoinIsPlain(lines: seq<string>)
    requires CleanLines(lines) && lines != []
    ensures NoCrLf(Joined(lines) + "\n")
    decreases |lines|
  {
    hide NoCrLf;
    BlankIsPlain();
    CleanLineIsPlain(lines[0]);
    if |lines| == 1 {
      assert Joined(lines) + "\n" == lines[0] + "\n";
    } else {
      CleanJoinIsPlain(lines[1..]);
      assert Joined(lines) + "\n" == (lines[0] + "\n") + (Joined(lines[1..]) + "\n");
      NoCrLfConcat(lines[0] + "\n", Joined(lines[1..]) + "\n");
    }
  }

  lemma CleanLineIsPlain(l: string)
    requires CleanLine(l)
    ensures NoCrLf(l + "\n")
  {
    NoCrLfConcat(l, "\n");
    forall i | 0 <= i < |l| - 1 ensures !(l[i] == '\r' && l[i + 1] == '\n') {
      assert l[i + 1] in l;
    }
  }
}
