/** What applying a wiring writes into the start-up files, told word for word, and what a revert cuts out of
    them again. */
module ShellShows {
  import opened Collections
  import opened Substrings
  import opened YamlLines
  import opened ShellRc

  /** An owned block as it stands in the file. */
  function Written(marker: string, content: string): string {
    "\n# >>> BEGIN " + marker + " (added by envctl) >>>\n" + content + "\n# <<< END " + marker + " <<<\n"
  }

  /** The line that puts one directory at the front of the search path unless it is there. */
  function PathLine(dir: string): string {
    "case \":$PATH:\" in *\":" + dir + ":\"*) ;; *) export PATH=\"" + dir + ":$PATH\";; esac"
  }

  function PathText(dirs: seq<string>): string {
    if dirs == [] then "" else PathLine(dirs[0]) + "\n" + PathText(dirs[1..])
  }

  lemma BlockIsWritten(b: Block)
    ensures BlockText(b) == Written(b.marker, TrimEnd(b.content))
  {
    hide TrimEnd;
    var c := TrimEnd(b.content);
    assert ['\n'] + BEGIN == "\n# >>> BEGIN " && BEGIN_END + ['\n'] == " (added by envctl) >>>\n";
    assert ['\n'] + END == "\n# <<< END " && END_END + ['\n'] == " <<<\n";
    Regrouped(['\n'], BEGIN, b.marker, BEGIN_END, ['\n'], c, END, END_END);
  }

  lemma Regrouped(n: string, a: string, m: string, e: string, n2: string, c: string, x: string, y: string)
    requires n == n2
    ensures n + ((a + m + e) + n + (c + n + ((x + m + y) + n))) == (n + a) + m + (e + n) + c + (n + x) + m + (y + n)
  {
  }

  /** The parts of the path block's content. */
  lemma {:induction false} PathLinesAre(dirs: seq<string>)
    ensures PathLines(dirs) == PathText(dirs)
  {
    if dirs != [] {
      PathLinesAre(dirs[1..]);
      PathLineIs(dirs[0]);
      assert PathLines(dirs) == PATH_CASE + dirs[0] + PATH_THEN + dirs[0] + PATH_ELSE + PathLines(dirs[1..]);
    }
  }

  lemma PathLineIs(d: string)
    ensures PATH_CASE + d + PATH_THEN + d + PATH_ELSE == PathLine(d) + "\n"
  {
    assert PATH_ELSE == ":$PATH\";; esac" + "\n";
  }

  lemma {:induction false} PathTextEnds(dirs: seq<string>)
    requires dirs != []
    ensures TrimEnd(PathText(dirs)) != "" && TrimEnd(PathText(dirs)) + "\n" == PathText(dirs)
  {
    hide IsSpace, PathLine;
    var t := PathText(dirs);
    if |dirs| > 1 {
      PathTextEnds(dirs[1..]);
      var line, rest := PathLine(dirs[0]) + "\n", PathText(dirs[1..]);
      TrimTail(line, rest);
    } else {
      assert dirs[1..] == [] && PathText(dirs[1..]) == "";
      assert PathLine(dirs[0]) + "\n" + "" == PathLine(dirs[0]) + "\n";
      assert t == PathLine(dirs[0]) + "\n";
      PathLineEnds(dirs[0]);
      var l := PathLine(dirs[0]);
      assert t[..|t| - 1] == l;
      NewLineIsSpace();
      TrimEndDone(l);
    }
  }

  lemma NewLineIsSpace()
    ensures IsSpace('\n') && !IsSpace('c')
  {
  }

  lemma PathLineEnds(d: string)
    ensures PathLine(d) != "" && !IsSpace(PathLine(d)[|PathLine(d)| - 1])
  {
    var tail := ":$PATH\";; esac";
    assert PathLine(d)[|PathLine(d)| - 1] == tail[|tail| - 1] == 'c';
    NewLineIsSpace();
  }

  lemma TrimTail(line: string, rest: string)
    requires TrimEnd(rest) != "" && TrimEnd(rest) + "\n" == rest
    ensures TrimEnd(line + rest) != "" && TrimEnd(line + rest) + "\n" == line + rest
  {
    hide IsSpace;
    NewLineIsSpace();
    var t := line + rest;
    assert rest[|rest| - 1] == '\n' && rest[..|rest| - 1] == TrimEnd(rest);
    assert t[|t| - 1] == '\n' && t[..|t| - 1] == line + TrimEnd(rest);
    TrimEndIsPrefix(rest);
    TrimEndDone(line + TrimEnd(rest));
  }

  // --------------------------------------------------------------- whole files

  lemma HasPart(a: string, p: string, b: string)
    ensures Has(a + p + b, p)
  {
    assert (a + p + b)[|a|..|a| + |p|] == p;
    assert At(a + p + b, p, |a|);
  }

  lemma HasInPart(a: string, m: string, b: string, p: string)
    requires Has(m, p)
    ensures Has(a + m + b, p)
  {
    var k: nat :| At(m, p, k);
    assert (a + m + b)[|a| + k..|a| + k + |p|] == m[k..k + |p|];
    assert At(a + m + b, p, |a| + k);
  }

  lemma {:induction false} BlocksTextHas(blocks: seq<Block>, b: Block)
    requires b in blocks
    ensures Has(BlocksText(blocks), BlockText(b))
  {
    hide BlockText, At, Has;
    var first, rest := BlockText(blocks[0]), BlocksText(blocks[1..]);
    if b == blocks[0] {
      HasPart("", first, rest);
      assert "" + first + rest == BlocksText(blocks);
    } else {
      BlocksTextHas(blocks[1..], b);
      HasInPart(first, rest, "", BlockText(b));
      assert first + rest + "" == BlocksText(blocks);
    }
  }

  /** Every block of a wiring whose markers were not on its file before stands in the file, word for word. */
  lemma EveryBlockIsWritten(w: Wiring, disk: map<string, string>, b: Block)
    requires b in BlocksOf(w)
    requires CleanBlocks(OnFile(BlocksOf(w), b.file)) && NoneIn(OnFile(BlocksOf(w), b.file), Read(disk, b.file))
    ensures Has(Read(ApplyDisk(BlocksOf(w), disk), b.file), Written(b.marker, TrimEnd(b.content)))
  {
    hide BlocksOf, ApplyDisk, CleanBlocks, NoneIn, At, Has, BlockText, TrimEnd;
    var blocks := OnFile(BlocksOf(w), b.file);
    ApplyDiskAt(BlocksOf(w), disk, b.file);
    AppliedText(blocks, Read(disk, b.file));
    BlocksTextHas(blocks, b);
    BlockIsWritten(b);
    HasInPart(Read(disk, b.file), BlocksText(blocks), "", BlockText(b));
    assert Read(disk, b.file) + BlocksText(blocks) + "" == Read(disk, b.file) + BlocksText(blocks);
  }

  /** A wiring with directories puts all of them on the search path, in one block of `~/.bashrc`. */
  lemma PathIsWritten(w: Wiring, disk: map<string, string>)
    requires w.pathEntries != []
    requires var blocks := OnFile(BlocksOf(w), "~/.bashrc"); CleanBlocks(blocks) && NoneIn(blocks, Read(disk, "~/.bashrc"))
    ensures Has(Read(ApplyDisk(BlocksOf(w), disk), "~/.bashrc"),
                "\n# >>> BEGIN envctl PATH" + " (added by envctl) >>>\n" + PathText(w.pathEntries) + "# <<< END envctl PATH <<<\n")
  {
    hide ApplyDisk, CleanBlocks, NoneIn, At, Has, PathText, PathLines, TrimEnd;
    var b := Block("~/.bashrc", "envctl PATH", PathLines(w.pathEntries));
    assert BlocksOf(w)[0] == b;
    EveryBlockIsWritten(w, disk, b);
    PathLinesAre(w.pathEntries);
    PathTextEnds(w.pathEntries);
    PathBlockText(TrimEnd(PathText(w.pathEntries)));
  }

  lemma PathBlockText(content: string)
    ensures Written("envctl PATH", content) ==
      "\n# >>> BEGIN envctl PATH" + " (added by envctl) >>>\n" + (content + "\n") + "# <<< END envctl PATH <<<\n"
  {
    PathBegins();
    PathEnds();
    MarkersMeet("\n# >>> BEGIN ", "envctl PATH", " (added by envctl) >>>\n", content, "\n", "# <<< END ", " <<<\n");
  }

  lemma PathBegins()
    ensures "\n# >>> BEGIN " + "envctl PATH" == "\n# >>> BEGIN envctl PATH"
  {
  }

  lemma PathEnds()
    ensures "\n# <<< END " == "\n" + "# <<< END " && "# <<< END " + "envctl PATH" + " <<<\n" == "# <<< END envctl PATH <<<\n"
  {
  }

  lemma MarkersMeet(a: string, m: string, b: string, content: string, n: string, e: string, z: string)
    ensures a + m + b + content + (n + e) + m + z == (a + m + b) + (content + n) + (e + m + z)
  {
  }

  lemma {:induction false} AllAppends(blocks: seq<Block>, text: string)
    ensures |text| <= |ApplyAllText(blocks, text)| && ApplyAllText(blocks, text)[..|text|] == text
  {
    hide BlockText, Search;
    if blocks != [] { AllAppends(blocks[1..], ApplyText(blocks[0], text)); }
  }

  /** What a file held before stays in front, untouched, whatever it was. */
  lemma OldTextStays(w: Wiring, disk: map<string, string>, file: string)
    ensures var before, after := Read(disk, file), Read(ApplyDisk(BlocksOf(w), disk), file);
      |before| <= |after| && after[..|before|] == before
  {
    hide BlocksOf, ApplyDisk, ApplyAllText;
    ApplyDiskAt(BlocksOf(w), disk, file);
    AllAppends(OnFile(BlocksOf(w), file), Read(disk, file));
  }

  // ---------------------------------------------------------- what a revert does

  lemma AtTail(t: string, p: string, i: nat, k: nat)
    requires i <= |t|
    ensures At(t[i..], p, k) <==> At(t, p, i + k)
  {
    if i + k + |p| <= |t| { assert t[i..][k..k + |p|] == t[i + k..i + k + |p|]; }
  }

  lemma HasTail(t: string, p: string, i: nat)
    requires i <= |t|
    ensures Has(t[i..], p) <==> exists k: nat :: i <= k && At(t, p, k)
  {
    hide At;
    forall k: nat ensures At(t[i..], p, k) <==> At(t, p, i + k) { AtTail(t, p, i, k); }
    if k: nat :| i <= k && At(t, p, k) { assert At(t[i..], p, k - i); }
  }

  /** Told by where the two lines stand: `bi` is the first begin line, `ei` the first end line from there on. */
  lemma RevertTells(b: Block, text: string, bi: nat, ei: nat)
    requires var begin, end := "# >>> BEGIN " + b.marker + " (added by envctl) >>>", "# <<< END " + b.marker + " <<<";
      && bi <= ei && At(text, begin, bi) && (forall k: nat :: k < bi ==> !At(text, begin, k))
      && At(text, end, ei) && (forall k: nat :: bi <= k < ei ==> !At(text, end, k))
    ensures var begin, end := "# >>> BEGIN " + b.marker + " (added by envctl) >>>", "# <<< END " + b.marker + " <<<";
      var line := ei + |end|;
      var cut := if line < |text| && text[line] == '\n' then line + 1 else line;
      RevertText(b, text) ==
        if exists k: nat :: cut <= k && At(text, begin, k) then (text, Multiple) else (text[..bi] + text[cut..], Excised)
  {
    hide At, Has, Search;
    var begin, end := Begin(b.marker), End(b.marker);
    assert begin == "# >>> BEGIN " + b.marker + " (added by envctl) >>>" && end == "# <<< END " + b.marker + " <<<";
    SearchIs(text, begin, bi);
    AtFits(text, end, ei);
    forall k: nat ensures At(text[bi..], end, k) <==> At(text, end, bi + k) { AtTail(text, end, bi, k); }
    SearchIs(text[bi..], end, ei - bi);
    var line := ei + |end|;
    HasTail(text, begin, if line < |text| && text[line] == '\n' then line + 1 else line);
  }

  lemma AtFits(t: string, p: string, k: nat)
    requires At(t, p, k)
    ensures k + |p| <= |t|
  {
  }

  /** A begin line with no end line from the first one on: the file stays, and the run says so. */
  lemma NoEndIsTold(b: Block, text: string, bi: nat)
    requires var begin, end := "# >>> BEGIN " + b.marker + " (added by envctl) >>>", "# <<< END " + b.marker + " <<<";
      && At(text, begin, bi) && (forall k: nat :: k < bi ==> !At(text, begin, k))
      && forall k: nat :: bi <= k ==> !At(text, end, k)
    ensures RevertText(b, text) == (text, Unterminated)
  {
    hide At, Has, Search;
    var begin, end := Begin(b.marker), End(b.marker);
    assert begin == "# >>> BEGIN " + b.marker + " (added by envctl) >>>" && end == "# <<< END " + b.marker + " <<<";
    SearchIs(text, begin, bi);
    AtFits(text, begin, bi);
    HasTail(text, end, bi);
  }
}
